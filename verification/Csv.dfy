/**
 CSV export (packages/api/src/resolvers/analytics.ts and frontend/src/utils/exportUtils.ts) and a strict reader for
 the quoting rules of section 2 of RFC 4180, with a bare line feed between records.
 */
module Csv {
  import opened Sequences
  import opened Wrappers

  predicate IsSpecial(c: char) {
    c == ',' || c == '"' || c == '\n'
  }

  // No comma, no quote, no line feed.
  predicate Plain(s: string) {
    forall i :: 0 <= i < |s| ==> !IsSpecial(s[i])
  }

  // Every quote replaced by two.
  function DoubleQuotes(s: string): string {
    if s == [] then [] else (if s[0] == '"' then ['"', '"'] else [s[0]]) + DoubleQuotes(s[1..])
  }

  // How one cell is printed: escaped where needed, or verbatim (headers, and stringified objects).
  datatype Piece = Escaped(value: string) | Verbatim(value: string)

  function PrintPiece(p: Piece): string {
    match p
    case Verbatim(value) => value
    case Escaped(value) => if Plain(value) then value else ['"'] + DoubleQuotes(value) + ['"']
  }

  function PrintPieces(row: seq<Piece>): seq<string> {
    seq(|row|, i requires 0 <= i < |row| => PrintPiece(row[i]))
  }

  function PrintRow(row: seq<Piece>): string {
    Join(PrintPieces(row), ',')
  }

  function PrintLines(rows: seq<seq<Piece>>): seq<string> {
    seq(|rows|, i requires 0 <= i < |rows| => PrintRow(rows[i]))
  }

  function PrintTable(rows: seq<seq<Piece>>): string {
    Join(PrintLines(rows), '\n')
  }

  // ----- Reading -----

  // A quoted field after its opening quote: its value and what follows the closing quote.
  function ReadQuoted(text: string): Option<(string, string)> {
    if text == [] then None
    else if text[0] != '"' then
      match ReadQuoted(text[1..])
      case None => None
      case Some((value, rest)) => Some(([text[0]] + value, rest))
    else if |text| > 1 && text[1] == '"' then
      match ReadQuoted(text[2..])
      case None => None
      case Some((value, rest)) => Some((['"'] + value, rest))
    else Some(([], text[1..]))
  }

  // An unquoted field extends to a comma, a line feed or the end, and has no quote inside.
  function ReadUnquoted(text: string): Option<(string, string)> {
    if text == [] || text[0] == ',' || text[0] == '\n' then Some(([], text))
    else if text[0] == '"' then None
    else
      match ReadUnquoted(text[1..])
      case None => None
      case Some((value, rest)) => Some(([text[0]] + value, rest))
  }

  predicate AtDelimiter(rest: string) {
    rest == [] || rest[0] == ',' || rest[0] == '\n'
  }

  function ReadField(text: string): Option<(string, string)> {
    if text != [] && text[0] == '"' then
      match ReadQuoted(text[1..])
      case None => None
      case Some((value, rest)) => if AtDelimiter(rest) then Some((value, rest)) else None
    else ReadUnquoted(text)
  }

  lemma {:induction false} ReadShortens(text: string)
    ensures ReadQuoted(text).Some? ==> |ReadQuoted(text).value.1| < |text|
    ensures ReadUnquoted(text).Some? ==>
            |ReadUnquoted(text).value.1| <= |text| && AtDelimiter(ReadUnquoted(text).value.1)
    decreases |text|
  {
    if text != [] {
      ReadShortens(text[1..]);
      if |text| > 1 {
        ReadShortens(text[2..]);
      }
    }
  }

  lemma ReadFieldShortens(text: string)
    ensures ReadField(text).Some? ==> |ReadField(text).value.1| <= |text| && AtDelimiter(ReadField(text).value.1)
  {
    ReadShortens(text);
    if text != [] {
      ReadShortens(text[1..]);
    }
  }

  // The records of a text; None if it is not well formed.
  function ReadRecords(text: string): (r: Option<seq<seq<string>>>)
    ensures r.Some? ==> r.value != [] && r.value[0] != []
    decreases |text|
  {
    ReadFieldShortens(text);
    match ReadField(text)
    case None => None
    case Some((value, rest)) =>
      if rest == [] then Some([[value]])
      else match ReadRecords(rest[1..])
        case None => None
        case Some(records) =>
          if rest[0] == ',' then Some([[value] + records[0]] + records[1..])
          else Some([[value]] + records)
  }

  // ----- One field -----

  lemma {:induction false} ReadDoubled(value: string, rest: string)
    requires AtDelimiter(rest)
    ensures ReadQuoted(DoubleQuotes(value) + ['"'] + rest) == Some((value, rest))
    decreases |value|
  {
    var text := DoubleQuotes(value) + ['"'] + rest;
    if value == [] {
      assert text == ['"'] + rest;
    } else {
      var tail := DoubleQuotes(value[1..]) + ['"'] + rest;
      ReadDoubled(value[1..], rest);
      if value[0] == '"' {
        assert text == ['"', '"'] + tail;
      } else {
        assert text == [value[0]] + tail;
      }
      assert [value[0]] + value[1..] == value;
    }
  }

  // Unquoted reading stops at the first special character.
  lemma {:induction false} ReadPlain(value: string, rest: string)
    requires Plain(value) && AtDelimiter(rest)
    ensures ReadUnquoted(value + rest) == Some((value, rest))
    decreases |value|
  {
    if value == [] {
      assert value + rest == rest;
    } else {
      assert (value + rest)[1..] == value[1..] + rest;
      ReadPlain(value[1..], rest);
      assert [value[0]] + value[1..] == value;
    }
  }

  lemma {:induction false} UnquotedIsPlain(text: string)
    ensures ReadUnquoted(text).Some? ==> Plain(ReadUnquoted(text).value.0)
    decreases |text|
  {
    if text != [] {
      UnquotedIsPlain(text[1..]);
    }
  }

  // A value read between quotes is never the raw text itself: after `k` more leading quotes of the text the value
  // has had at most half of them, and then something else or nothing.
  function LeadingQuotes(s: string): nat {
    if s != [] && s[0] == '"' then 1 + LeadingQuotes(s[1..]) else 0
  }

  lemma {:induction false} QuotedLeadingQuotes(text: string)
    ensures ReadQuoted(text).Some? ==> 2 * LeadingQuotes(ReadQuoted(text).value.0) <= LeadingQuotes(text)
    decreases |text|
  {
    if text != [] && text[0] == '"' && |text| > 1 && text[1] == '"' {
      QuotedLeadingQuotes(text[2..]);
      assert text[1..][1..] == text[2..];
      assert LeadingQuotes(text) == 2 + LeadingQuotes(text[2..]);
      if ReadQuoted(text).Some? {
        var value := ReadQuoted(text[2..]).value.0;
        assert (['"'] + value)[1..] == value;
      }
    }
  }

  lemma {:induction false} LeadingQuotesAppend(value: string, rest: string)
    requires rest == [] || rest[0] != '"'
    ensures LeadingQuotes(value + rest) == LeadingQuotes(value)
    decreases |value|
  {
    if value == [] {
      assert value + rest == rest;
    } else {
      assert (value + rest)[1..] == value[1..] + rest;
      LeadingQuotesAppend(value[1..], rest);
    }
  }

  // A verbatim field is read back exactly if it is plain.
  lemma ReadVerbatim(value: string, rest: string)
    requires AtDelimiter(rest)
    ensures Plain(value) ==> ReadField(value + rest) == Some((value, rest))
    ensures ReadField(value + rest).Some? && ReadField(value + rest).value.0 == value ==> Plain(value)
  {
    var text := value + rest;
    if Plain(value) {
      ReadPlain(value, rest);
    }
    if value != [] && value[0] == '"' {
      assert text[1..] == value[1..] + rest;
      QuotedLeadingQuotes(text[1..]);
      LeadingQuotesAppend(value[1..], rest);
    } else {
      UnquotedIsPlain(text);
    }
  }

  lemma ReadEscaped(value: string, rest: string)
    requires AtDelimiter(rest)
    ensures ReadField(PrintPiece(Escaped(value)) + rest) == Some((value, rest))
  {
    if Plain(value) {
      ReadPlain(value, rest);
    } else {
      ReadDoubled(value, rest);
      ReadAfterQuote(DoubleQuotes(value), value, rest);
    }
  }

  lemma ReadAfterQuote(inside: string, value: string, rest: string)
    requires AtDelimiter(rest) && ReadQuoted(inside + ['"'] + rest) == Some((value, rest))
    ensures ReadField(['"'] + inside + ['"'] + rest) == Some((value, rest))
  {
    assert (['"'] + inside + ['"'] + rest)[1..] == inside + ['"'] + rest;
  }

  predicate Readable(p: Piece) {
    p.Verbatim? ==> Plain(p.value)
  }

  lemma ReadPiece(p: Piece, rest: string)
    requires AtDelimiter(rest)
    ensures Readable(p) ==> ReadField(PrintPiece(p) + rest) == Some((p.value, rest))
    ensures ReadField(PrintPiece(p) + rest).Some? && ReadField(PrintPiece(p) + rest).value.0 == p.value ==> Readable(p)
  {
    match p
    case Verbatim(value) => ReadVerbatim(value, rest);
    case Escaped(value) => ReadEscaped(value, rest);
  }

  // ----- Whole tables -----

  function RowValues(row: seq<Piece>): seq<string> {
    seq(|row|, i requires 0 <= i < |row| => row[i].value)
  }

  function Values(rows: seq<seq<Piece>>): seq<seq<string>> {
    seq(|rows|, i requires 0 <= i < |rows| => RowValues(rows[i]))
  }

  predicate RowReadable(row: seq<Piece>) {
    forall i :: 0 <= i < |row| ==> Readable(row[i])
  }

  predicate TableReadable(rows: seq<seq<Piece>>) {
    forall i :: 0 <= i < |rows| ==> RowReadable(rows[i])
  }

  // What is left of a table after its first piece and the delimiter behind it.
  function Remaining(rows: seq<seq<Piece>>): seq<seq<Piece>>
    requires rows != [] && rows[0] != []
  {
    if |rows[0]| > 1 then [rows[0][1..]] + rows[1..] else rows[1..]
  }

  lemma PrintFirstPiece(rows: seq<seq<Piece>>)
    requires rows != [] && rows[0] != []
    ensures PrintTable(rows) == PrintPiece(rows[0][0]) +
      (if |rows[0]| > 1 then [','] + PrintTable(Remaining(rows))
       else if |rows| > 1 then ['\n'] + PrintTable(Remaining(rows)) else [])
  {
    var row, rest := rows[0], Remaining(rows);
    assert PrintPieces(row)[1..] == PrintPieces(row[1..]);
    assert PrintLines(rows)[1..] == PrintLines(rows[1..]);
    if |row| > 1 {
      assert PrintRow(row) == PrintPiece(row[0]) + [','] + PrintRow(row[1..]);
      assert PrintLines(rest)[0] == PrintRow(row[1..]) && PrintLines(rest)[1..] == PrintLines(rows[1..]);
    } else {
      assert PrintRow(row) == PrintPiece(row[0]);
    }
  }

  lemma ValuesOfRemaining(rows: seq<seq<Piece>>)
    requires rows != [] && rows[0] != []
    ensures Values(rows) == if |rows[0]| > 1
            then [[rows[0][0].value] + Values(Remaining(rows))[0]] + Values(Remaining(rows))[1..]
                            else [[rows[0][0].value]] + Values(Remaining(rows))
    ensures TableReadable(rows) <==> Readable(rows[0][0]) && TableReadable(Remaining(rows))
  {
    var row, rest := rows[0], Remaining(rows);
    assert RowReadable(row) <==> Readable(row[0]) && RowReadable(row[1..]);
    assert TableReadable(rows) <==> RowReadable(row) && TableReadable(rows[1..]);
    if |row| > 1 {
      assert RowValues(row) == [row[0].value] + RowValues(row[1..]);
      assert rest[0] == row[1..] && rest[1..] == rows[1..];
    } else {
      assert RowValues(row) == [row[0].value];
      assert RowReadable(row[1..]);
    }
  }

  function PieceCount(rows: seq<seq<Piece>>): nat {
    if rows == [] then 0 else |rows[0]| + PieceCount(rows[1..])
  }

  // Main result: a printed table reads back to its cells exactly if every verbatim piece is plain.
  lemma {:induction false} TableRoundTrip(rows: seq<seq<Piece>>)
    requires rows != [] && forall i :: 0 <= i < |rows| ==> rows[i] != []
    ensures ReadRecords(PrintTable(rows)) == Some(Values(rows)) <==> TableReadable(rows)
    decreases PieceCount(rows)
  {
    var p, rest := rows[0][0], Remaining(rows);
    PrintFirstPiece(rows);
    ValuesOfRemaining(rows);
    var text := PrintTable(rows);
    var after := if |rows[0]| > 1 then [','] + PrintTable(rest) else if |rows| > 1 then ['\n'] + PrintTable(rest)
      else [];
    ReadPiece(p, after);
    FirstFieldRead(text);
    if after == [] {
      assert text == PrintPiece(p) + after == PrintPiece(p);
      assert Values(rest) == [] && TableReadable(rest);
      assert Values(rows) == [[p.value]];
    } else {
      assert after[1..] == PrintTable(rest);
      assert PieceCount(rest) < PieceCount(rows) by {
        assert rest == if |rows[0]| > 1 then [rows[0][1..]] + rows[1..] else rows[1..];
      }
      TableRoundTrip(rest);
      FirstPieceDecides(rows, after);
    }
  }

  lemma FirstFieldRead(text: string)
    ensures ReadRecords(text).Some? ==>
            ReadField(text).Some? && ReadRecords(text).value[0][0] == ReadField(text).value.0
  {
    ReadFieldShortens(text);
  }

  lemma SameAfterFirst(value: string, a: seq<seq<string>>, b: seq<seq<string>>)
    requires a != [] && b != []
    ensures [[value] + a[0]] + a[1..] == [[value] + b[0]] + b[1..] <==> a == b
    ensures [[value]] + a == [[value]] + b <==> a == b
  {
    var x, y := [[value] + a[0]] + a[1..], [[value] + b[0]] + b[1..];
    assert x[0][1..] == a[0] && y[0][1..] == b[0];
    assert x[1..] == a[1..] && y[1..] == b[1..];
    assert a == [a[0]] + a[1..] && b == [b[0]] + b[1..];
    assert ([[value]] + a)[1..] == a && ([[value]] + b)[1..] == b;
  }

  lemma FirstPieceDecides(rows: seq<seq<Piece>>, after: string)
    requires rows != [] && rows[0] != [] && Remaining(rows) != [] && after != []
    requires PrintTable(rows) == PrintPiece(rows[0][0]) + after && AtDelimiter(after)
    requires after == [if |rows[0]| > 1 then ',' else '\n'] + PrintTable(Remaining(rows))
    requires ReadRecords(PrintTable(Remaining(rows))) == Some(Values(Remaining(rows)))
             <==> TableReadable(Remaining(rows))
    ensures ReadRecords(PrintTable(rows)) == Some(Values(rows)) <==> TableReadable(rows)
  {
    var p, rest := rows[0][0], Remaining(rows);
    ReadPiece(p, after);
    ValuesOfRemaining(rows);
    var text := PrintTable(rows);
    ReadFieldShortens(text);
    FirstFieldRead(text);
    assert Values(rows)[0][0] == p.value;
    if Readable(p) {
      assert after[1..] == PrintTable(rest);
      var records := ReadRecords(PrintTable(rest));
      if records.Some? {
        SameAfterFirst(p.value, records.value, Values(rest));
      }
    }
  }

  // ----- The two exports -----

  // What a row holds under a header: null or undefined, something String() prints, or an object.
  datatype Cell = Empty | Scalar(text: string) | Object(json: string)

  datatype Record = Record(keys: seq<string>, cells: map<string, Cell>)

  function CellOf(r: Record, header: string): Cell {
    if header in r.cells then r.cells[header] else Empty
  }

  function HeaderPieces(headers: seq<string>): seq<Piece> {
    seq(|headers|, i requires 0 <= i < |headers| => Verbatim(headers[i]))
  }

  // The dashboard prints objects as JSON, without escaping.
  function DashboardPiece(c: Cell): Piece {
    match c
    case Empty => Escaped("")
    case Scalar(text) => Escaped(text)
    case Object(json) => Verbatim(json)
  }

  // The API prints every value with String() and escapes it; an object's String() is its text here.
  function ApiPiece(c: Cell): Piece {
    match c
    case Empty => Escaped("")
    case Scalar(text) => Escaped(text)
    case Object(json) => Escaped(json)
  }

  function RecordPieces(headers: seq<string>, r: Record, piece: Cell -> Piece): seq<Piece> {
    seq(|headers|, i requires 0 <= i < |headers| => piece(CellOf(r, headers[i])))
  }

  function RecordRows(headers: seq<string>, data: seq<Record>, piece: Cell -> Piece): seq<seq<Piece>> {
    seq(|data|, i requires 0 <= i < |data| => RecordPieces(headers, data[i], piece))
  }

  // The printed table: the keys of the first record, then one row for each record.
  function Table(data: seq<Record>, piece: Cell -> Piece): seq<seq<Piece>>
    requires data != []
  {
    [HeaderPieces(data[0].keys)] + RecordRows(data[0].keys, data, piece)
  }

  method ReplaceQuotes(s: string) returns (r: string)
    ensures r == DoubleQuotes(s)
  {
    r := [];
    for i := 0 to |s|
      invariant r + DoubleQuotes(s[i..]) == DoubleQuotes(s)
    {
      assert s[i..][1..] == s[i + 1..];
      r := r + (if s[i] == '"' then ['"', '"'] else [s[i]]);
    }
  }

  method PrintCell(c: Cell, escapeObjects: bool) returns (text: string)
    ensures text == PrintPiece(if escapeObjects then ApiPiece(c) else DashboardPiece(c))
  {
    if c.Empty? {
      return "";
    }
    if c.Object? && !escapeObjects {
      return c.json;
    }
    var stringValue := if c.Object? then c.json else c.text;
    if ',' in stringValue || '"' in stringValue || '\n' in stringValue {
      var doubled := ReplaceQuotes(stringValue);
      assert !Plain(stringValue);
      return ['"'] + doubled + ['"'];
    }
    return stringValue;
  }

  method JoinParts(parts: seq<string>, separator: char) returns (text: string)
    ensures text == Join(parts, separator)
  {
    if parts == [] {
      return [];
    }
    var i := |parts| - 1;
    text := parts[i];
    assert parts[i..] == [parts[i]];
    while i > 0
      invariant 0 <= i < |parts| && text == Join(parts[i..], separator)
    {
      i := i - 1;
      assert parts[i..][1..] == parts[i + 1..];
      text := parts[i] + [separator] + text;
    }
    assert parts[0..] == parts;
  }

  // The line of one record.
  method PrintRecord(headers: seq<string>, r: Record, escapeObjects: bool) returns (line: string)
    ensures line == PrintRow(RecordPieces(headers, r, if escapeObjects then ApiPiece else DashboardPiece))
  {
    ghost var pieces := RecordPieces(headers, r, if escapeObjects then ApiPiece else DashboardPiece);
    ghost var printed := PrintPieces(pieces);
    var values: seq<string> := [];
    for k := 0 to |headers|
      invariant values == printed[..k]
    {
      var value := PrintCell(CellOf(r, headers[k]), escapeObjects);
      assert printed[k] == PrintPiece(pieces[k]) == value;
      values := values + [value];
      assert printed[..k + 1] == printed[..k] + [printed[k]];
    }
    assert printed[..|printed|] == printed;
    line := JoinParts(values, ',');
  }

  // arrayToCSV (escapeObjects false) and the CSV branch of exportData (escapeObjects true).
  method ArrayToCsv(data: seq<Record>, escapeObjects: bool) returns (csv: string)
    ensures data == [] ==> csv == ""
    ensures data != [] ==> csv == PrintTable(Table(data, if escapeObjects then ApiPiece else DashboardPiece))
  {
    if |data| == 0 {
      return "";
    }
    var headers := data[0].keys;
    ghost var piece := if escapeObjects then ApiPiece else DashboardPiece;
    ghost var table := Table(data, piece);
    var headerLine := JoinParts(headers, ',');
    assert PrintPieces(table[0]) == headers;
    var csvRows := [headerLine];
    for i := 0 to |data|
      invariant csvRows == PrintLines(table)[..i + 1]
    {
      var line := PrintRecord(headers, data[i], escapeObjects);
      assert table[i + 1] == RecordPieces(headers, data[i], piece);
      csvRows := csvRows + [line];
    }
    assert csvRows == PrintLines(table);
    csv := JoinParts(csvRows, '\n');
  }

  predicate PlainObjects(headers: seq<string>, data: seq<Record>) {
    forall i, k :: 0 <= i < |data| && 0 <= k < |headers| ==> PlainObject(CellOf(data[i], headers[k]))
  }

  predicate PlainObject(c: Cell) {
    c.Object? ==> Plain(c.json)
  }

  lemma RecordRowsReadable(headers: seq<string>, data: seq<Record>)
    ensures TableReadable(RecordRows(headers, data, ApiPiece))
    ensures TableReadable(RecordRows(headers, data, DashboardPiece)) <==> PlainObjects(headers, data)
  {
    var escaped := RecordRows(headers, data, ApiPiece);
    forall i | 0 <= i < |data| ensures RowReadable(escaped[i]) {
      assert forall k :: 0 <= k < |headers| ==> escaped[i][k] == ApiPiece(CellOf(data[i], headers[k]));
    }
    var rows := RecordRows(headers, data, DashboardPiece);
    forall i | 0 <= i < |data|
      ensures RowReadable(rows[i]) <==> forall k :: 0 <= k < |headers| ==> PlainObject(CellOf(data[i], headers[k]))
    {
      assert forall k :: 0 <= k < |headers| ==> rows[i][k] == DashboardPiece(CellOf(data[i], headers[k]));
    }
  }

  // Main result for the exports: with at least one record, reading gives back the headers and the text of every
  // cell exactly if there is a column and the headers are plain - and, on the dashboard, every stringified object
  // happens to be plain. Commas, quotes and line feeds in scalar cells never matter.
  lemma ExportRoundTrip(data: seq<Record>, escapeObjects: bool)
    requires data != []
    ensures var table := Table(data, if escapeObjects then ApiPiece else DashboardPiece);
            ReadRecords(PrintTable(table)) == Some(Values(table))
            <==> data[0].keys != [] && (forall k :: 0 <= k < |data[0].keys| ==> Plain(data[0].keys[k]))
                 && (escapeObjects || PlainObjects(data[0].keys, data))
  {
    var piece := if escapeObjects then ApiPiece else DashboardPiece;
    var table := Table(data, piece);
    var headers := data[0].keys;
    if headers == [] {
      assert Values(table)[0] == [];
    } else {
      TableRoundTrip(table);
      HeadersReadable(headers);
      RecordRowsReadable(headers, data);
      FirstRowReadable(table[0], RecordRows(headers, data, piece));
    }
  }

  // What a reader should find for a record under a header.
  function Shown(r: Record, header: string): string {
    if header !in r.cells then ""
    else match r.cells[header]
      case Empty => ""
      case Scalar(text) => text
      case Object(json) => json
  }

  // Main result in terms of the data: the export then reads back as the headers and, record by record and column by
  // column, the text of what the record holds under the header, nothing where it holds nothing.
  lemma ExportReadsBack(data: seq<Record>, escapeObjects: bool)
    requires data != [] && data[0].keys != [] && forall k :: 0 <= k < |data[0].keys| ==> Plain(data[0].keys[k])
    requires escapeObjects || PlainObjects(data[0].keys, data)
    ensures var read := ReadRecords(PrintTable(Table(data, if escapeObjects then ApiPiece else DashboardPiece)));
            && read.Some? && |read.value| == |data| + 1 && read.value[0] == data[0].keys
            && forall i :: 0 <= i < |data| ==>
                 && |read.value[i + 1]| == |data[0].keys|
                 && forall k :: 0 <= k < |data[0].keys| ==> read.value[i + 1][k] == Shown(data[i], data[0].keys[k])
  {
    ExportRoundTrip(data, escapeObjects);
    var piece := if escapeObjects then ApiPiece else DashboardPiece;
    var table, headers := Table(data, piece), data[0].keys;
    assert Values(table)[0] == headers;
    forall i | 0 <= i < |data|
      ensures |Values(table)[i + 1]| == |headers|
      ensures forall k :: 0 <= k < |headers| ==> Values(table)[i + 1][k] == Shown(data[i], headers[k])
    {
      var row := RecordPieces(headers, data[i], piece);
      assert table[i + 1] == row && Values(table)[i + 1] == RowValues(row);
      forall k | 0 <= k < |headers| ensures RowValues(row)[k] == Shown(data[i], headers[k]) {
        assert row[k] == piece(CellOf(data[i], headers[k]));
      }
    }
  }

  // A cell is quoted exactly if it contains a comma, a quote or a line feed.
  lemma QuotedIfSpecial(value: string)
    ensures PrintPiece(Escaped(value)) == value <==> ',' !in value && '"' !in value && '\n' !in value
    ensures PrintPiece(Escaped(value)) != value ==> |PrintPiece(Escaped(value))| >= |value| + 2
  {
    DoublingLengthens(value);
  }

  lemma {:induction false} DoublingLengthens(s: string)
    ensures |DoubleQuotes(s)| >= |s|
    decreases |s|
  {
    if s != [] {
      DoublingLengthens(s[1..]);
    }
  }

  lemma HeadersReadable(headers: seq<string>)
    ensures RowReadable(HeaderPieces(headers)) <==> forall k :: 0 <= k < |headers| ==> Plain(headers[k])
  {
    assert forall k :: 0 <= k < |headers| ==> HeaderPieces(headers)[k] == Verbatim(headers[k]);
  }

  lemma FirstRowReadable(row: seq<Piece>, rows: seq<seq<Piece>>)
    ensures TableReadable([row] + rows) <==> RowReadable(row) && TableReadable(rows)
  {
    var table := [row] + rows;
    assert table[0] == row && table[1..] == rows;
    forall i | 0 <= i < |rows| ensures table[i + 1] == rows[i] {
    }
  }
}
