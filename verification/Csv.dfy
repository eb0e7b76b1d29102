/** The CSV export of the admin service, and a reader for section 2 of RFC 4180 (rules 5 to 7, with LF
    as record separator) that undoes it. */
module Csv {
  import opened Common

  type Field = string
  type Row = seq<Field>

  // ---------------------------------------------------------------------------
  // The printer
  // ---------------------------------------------------------------------------

  function DoubleQuotes(f: Field): string {
    if f == "" then ""
    else (if f[0] == '"' then "\"\"" else [f[0]]) + DoubleQuotes(f[1..])
  }

  predicate NeedsQuotes(f: Field) {
    ',' in f || '"' in f || '\n' in f
  }

  function EscapeCsvField(f: Field): string {
    if NeedsQuotes(f) then "\"" + DoubleQuotes(f) + "\"" else f
  }

  function Map(f: Field -> string, row: Row): seq<string>
    ensures |Map(f, row)| == |row|
  {
    if row == [] then [] else [f(row[0])] + Map(f, row[1..])
  }

  function Join(parts: seq<string>, separator: char): string {
    if parts == [] then ""
    else if |parts| == 1 then parts[0]
    else parts[0] + [separator] + Join(parts[1..], separator)
  }

  function CsvLine(row: Row): string {
    Join(Map(EscapeCsvField, row), ',')
  }

  function CsvLines(rows: seq<Row>): seq<string> {
    if rows == [] then [] else [CsvLine(rows[0])] + CsvLines(rows[1..])
  }

  const HEADERS: Row := [
    "id", "email", "displayName", "mode", "role", "isActivated", "isBlocked", "blockedAt", "blockedReason",
    "appearInSearches", "appearInDiscoveryGame", "hasDiscoveryAccess", "createdAt", "updatedAt"]

  /** The header is joined as it is; only the user rows are escaped. */
  function Export(headers: Row, rows: seq<Row>): string {
    Join([Join(headers, ',')] + CsvLines(rows), '\n')
  }

  function ExportUsers(rows: seq<Row>): string {
    Export(HEADERS, rows)
  }

  // ---------------------------------------------------------------------------
  // The reader
  // ---------------------------------------------------------------------------

  datatype Mode = FieldStart | Plain | Quoted | QuoteSeen

  /** Puts a piece of text in front of the first field of the first record. */
  function PrependText(s: string, table: Option<seq<Row>>): (r: Option<seq<Row>>)
    requires table.Some? ==> table.value != [] && table.value[0] != []
    ensures r.Some? ==> r.value != [] && r.value[0] != []
  {
    match table
    case None => None
    case Some(t) => Some([[s + t[0][0]] + t[0][1..]] + t[1..])
  }

  function NewField(table: Option<seq<Row>>): (r: Option<seq<Row>>)
    requires table.Some? ==> table.value != []
    ensures r.Some? ==> r.value != [] && r.value[0] != []
  {
    match table
    case None => None
    case Some(t) => Some([[""] + t[0]] + t[1..])
  }

  function NewRecord(table: Option<seq<Row>>): (r: Option<seq<Row>>)
    ensures r.Some? ==> r.value != [] && r.value[0] != []
  {
    match table
    case None => None
    case Some(t) => Some([[""]] + t)
  }

  /** The records of t, read from the given mode; None when t is not well formed. A strict reader also
      counts a carriage return as a line break that only a quoted field may contain (rule 6). */
  function Read(strict: bool, mode: Mode, t: string): (r: Option<seq<Row>>)
    ensures r.Some? ==> r.value != [] && r.value[0] != []
    decreases |t|
  {
    if t == "" then
      if mode == Quoted then None else Some([[""]])
    else
      var c, rest := t[0], t[1..];
      if mode == Quoted then
        if c == '"' then Read(strict, QuoteSeen, rest) else PrependText([c], Read(strict, Quoted, rest))
      else if c == ',' then NewField(Read(strict, FieldStart, rest))
      else if c == '\n' then NewRecord(Read(strict, FieldStart, rest))
      else if c == '"' then
        if mode == FieldStart then Read(strict, Quoted, rest)
        else if mode == QuoteSeen then PrependText("\"", Read(strict, Quoted, rest))
        else None
      else if mode == QuoteSeen || (strict && c == '\r') then None
      else PrependText([c], Read(strict, Plain, rest))
  }

  // ---------------------------------------------------------------------------
  // Reading back
  // ---------------------------------------------------------------------------

  /** What may follow a printed field. */
  predicate EndsField(rest: string) {
    rest == "" || rest[0] == ',' || rest[0] == '\n'
  }

  /** What the reader makes of the text after a field. */
  function AfterField(strict: bool, rest: string): (r: Option<seq<Row>>)
    ensures r.Some? ==> r.value != [] && r.value[0] != []
  {
    Read(strict, Plain, rest)
  }

  predicate Readable(strict: bool, f: Field) {
    !strict || '\r' !in f || NeedsQuotes(f)
  }

  predicate AllReadable(strict: bool, row: Row) {
    forall i :: 0 <= i < |row| ==> Readable(strict, row[i])
  }

  lemma PrependNothing(table: Option<seq<Row>>)
    requires table.Some? ==> table.value != [] && table.value[0] != []
    ensures PrependText("", table) == table
  {
    if table.Some? {
      var t := table.value;
      assert "" + t[0][0] == t[0][0];
      assert [t[0][0]] + t[0][1..] == t[0];
      assert [t[0]] + t[1..] == t;
    }
  }

  lemma PrependTwice(a: string, b: string, table: Option<seq<Row>>)
    requires table.Some? ==> table.value != [] && table.value[0] != []
    ensures PrependText(a, PrependText(b, table)) == PrependText(a + b, table)
  {
    if table.Some? {
      var t := table.value;
      assert a + (b + t[0][0]) == (a + b) + t[0][0];
    }
  }

  /** One step of the reader, for each kind of character. */
  lemma ReadsOne(strict: bool, mode: Mode, c: char, rest: string)
    ensures c == '"' && mode == Quoted ==> Read(strict, mode, [c] + rest) == Read(strict, QuoteSeen, rest)
    ensures c != '"' && mode == Quoted ==>
              Read(strict, mode, [c] + rest) == PrependText([c], Read(strict, Quoted, rest))
    ensures c == '"' && mode == QuoteSeen ==> Read(strict, mode, [c] + rest) == PrependText("\"",
        Read(strict, Quoted, rest))
    ensures c == '"' && mode == FieldStart ==> Read(strict, mode, [c] + rest) == Read(strict, Quoted, rest)
    ensures c == ',' && mode != Quoted ==> Read(strict, mode, [c] + rest) == NewField(Read(strict, FieldStart, rest))
    ensures c == '\n' && mode != Quoted ==> Read(strict, mode, [c] + rest) == NewRecord(Read(strict, FieldStart, rest))
    ensures c != '"' && c != ',' && c != '\n' && (mode == Plain || mode == FieldStart) ==>
              Read(strict, mode, [c] + rest) == if strict && c == '\r' then None
                  else PrependText([c], Read(strict, Plain, rest))
  {
    assert ([c] + rest)[0] == c && ([c] + rest)[1..] == rest;
  }

  lemma {:induction false} PlainReads(strict: bool, f: Field, rest: string)
    requires !NeedsQuotes(f)
    ensures Read(strict, Plain, f + rest)
         == if strict && '\r' in f then None else PrependText(f, Read(strict, Plain, rest))
  {
    if f == "" {
      assert f + rest == rest;
      PrependNothing(Read(strict, Plain, rest));
    } else {
      assert f == [f[0]] + f[1..];
      assert f + rest == [f[0]] + (f[1..] + rest);
      ReadsOne(strict, Plain, f[0], f[1..] + rest);
      PlainReads(strict, f[1..], rest);
      PrependTwice([f[0]], f[1..], Read(strict, Plain, rest));
    }
  }

  lemma {:induction false} QuotedReads(strict: bool, f: Field, rest: string)
    ensures Read(strict, Quoted, DoubleQuotes(f) + ("\"" + rest)) == PrependText(f, Read(strict, QuoteSeen, rest))
  {
    if f == "" {
      assert DoubleQuotes(f) + ("\"" + rest) == ['"'] + rest;
      ReadsOne(strict, Quoted, '"', rest);
      PrependNothing(Read(strict, QuoteSeen, rest));
    } else {
      var tail := DoubleQuotes(f[1..]) + ("\"" + rest);
      assert f == [f[0]] + f[1..];
      if f[0] == '"' {
        assert DoubleQuotes(f) + ("\"" + rest) == ['"'] + (['"'] + tail);
        ReadsOne(strict, Quoted, '"', ['"'] + tail);
        ReadsOne(strict, QuoteSeen, '"', tail);
      } else {
        assert DoubleQuotes(f) + ("\"" + rest) == [f[0]] + tail;
        ReadsOne(strict, Quoted, f[0], tail);
      }
      QuotedReads(strict, f[1..], rest);
      PrependTwice([f[0]], f[1..], Read(strict, QuoteSeen, rest));
    }
  }

  /** A printed field reads as that field, whatever well-formed text follows it. */
  /** A field is quoted only if it holds a comma, a quote or a line feed, and printed as it is otherwise. */
  lemma QuotedIffNeeded(f: Field)
    ensures EscapeCsvField(f) == f <==> ',' !in f && '"' !in f && '\n' !in f
    ensures EscapeCsvField(f) != f ==> |EscapeCsvField(f)| >= 2 && EscapeCsvField(f)[0] == '"'
                                       && EscapeCsvField(f)[|EscapeCsvField(f)| - 1] == '"'
  {
    QuotingLengthens(f);
  }

  lemma {:induction false} QuotingLengthens(f: Field)
    ensures |DoubleQuotes(f)| >= |f|
  {
    if f != "" {
      QuotingLengthens(f[1..]);
    }
  }

  lemma FieldReads(strict: bool, f: Field, rest: string)
    requires EndsField(rest)
    ensures Read(strict, FieldStart, EscapeCsvField(f) + rest)
         == if Readable(strict, f) then PrependText(f, AfterField(strict, rest)) else None
  {
    assert Read(strict, QuoteSeen, rest) == Read(strict, Plain, rest) == Read(strict, FieldStart, rest);
    if NeedsQuotes(f) {
      var body := DoubleQuotes(f) + ("\"" + rest);
      assert EscapeCsvField(f) + rest == ['"'] + body;
      ReadsOne(strict, FieldStart, '"', body);
      QuotedReads(strict, f, rest);
    } else {
      PlainReads(strict, f, rest);
      if f == "" {
        assert f + rest == rest;
      } else {
        assert f + rest == [f[0]] + (f[1..] + rest);
        ReadsOne(strict, FieldStart, f[0], f[1..] + rest);
        ReadsOne(strict, Plain, f[0], f[1..] + rest);
      }
    }
  }

  /** The records when row stands before whatever the rest of the text holds. */
  function RowThen(row: Row, rest: Option<seq<Row>>): Option<seq<Row>> {
    match rest
    case None => None
    case Some(t) => if t == [] then None else Some([row] + t[1..])
  }

  lemma AllReadableSplits(strict: bool, row: Row)
    requires row != []
    ensures AllReadable(strict, row) <==> Readable(strict, row[0]) && AllReadable(strict, row[1..])
  {
    assert row == [row[0]] + row[1..];
    forall i | 0 <= i < |row[1..]| ensures row[1..][i] == row[i + 1] {}
    if Readable(strict, row[0]) && AllReadable(strict, row[1..]) {
      forall i | 0 <= i < |row| ensures Readable(strict, row[i])
      {
        if i > 0 { assert row[i] == row[1..][i - 1]; }
      }
    }
  }

  lemma CsvLineSplits(row: Row)
    requires |row| > 1
    ensures CsvLine(row) == EscapeCsvField(row[0]) + ("," + CsvLine(row[1..]))
  {
    var parts := Map(EscapeCsvField, row);
    assert parts[1..] == Map(EscapeCsvField, row[1..]);
    assert [','] == ",";
    assert Join(parts, ',') == parts[0] + [','] + Join(parts[1..], ',');
  }

  /** The last field of a record, and a field with more fields after it. */
  lemma LastFieldReads(strict: bool, f: Field, rest: string)
    requires rest == "" || rest[0] == '\n'
    ensures Read(strict, FieldStart, EscapeCsvField(f) + rest)
         == if Readable(strict, f) then RowThen([f], AfterField(strict, rest)) else None
  {
    RecordStartsEmpty(strict, rest);
    FieldReads(strict, f, rest);
    var nothing: Row := [""];
    assert f + "" == f && [f] + nothing[1..] == [f];
  }

  lemma FirstFieldReads(strict: bool, f: Field, row: Row, tail: string, rest: Option<seq<Row>>)
    requires row != [] && Read(strict, FieldStart, tail) == RowThen(row, rest)
    ensures Read(strict, FieldStart, EscapeCsvField(f) + ([','] + tail))
         == if Readable(strict, f) then RowThen([f] + row, rest) else None
  {
    FieldReads(strict, f, [','] + tail);
    ReadsOne(strict, Plain, ',', tail);
    assert f + "" == f && ([""] + row)[1..] == row;
  }

  lemma UnreadableAfter(strict: bool, f: Field, tail: string)
    requires Read(strict, FieldStart, tail) == None
    ensures Read(strict, FieldStart, EscapeCsvField(f) + ([','] + tail)) == None
  {
    FieldReads(strict, f, [','] + tail);
    ReadsOne(strict, Plain, ',', tail);
  }

  lemma FieldThenRowReads(strict: bool, row: Row, tail: string, rest: Option<seq<Row>>)
    requires |row| > 1
    requires Read(strict, FieldStart, tail) == if AllReadable(strict, row[1..]) then RowThen(row[1..], rest) else None
    ensures Read(strict, FieldStart, EscapeCsvField(row[0]) + ([','] + tail))
         == if AllReadable(strict, row) then RowThen(row, rest) else None
  {
    AllReadableSplits(strict, row);
    if AllReadable(strict, row[1..]) {
      FirstFieldReads(strict, row[0], row[1..], tail, rest);
      assert [row[0]] + row[1..] == row;
    } else {
      UnreadableAfter(strict, row[0], tail);
    }
  }

  lemma OneFieldReads(strict: bool, row: Row, rest: string)
    requires |row| == 1 && (rest == "" || rest[0] == '\n')
    ensures Read(strict, FieldStart, CsvLine(row) + rest)
         == if AllReadable(strict, row) then RowThen(row, AfterField(strict, rest)) else None
  {
    AllReadableSplits(strict, row);
    assert CsvLine(row) == EscapeCsvField(row[0]);
    LastFieldReads(strict, row[0], rest);
    assert [row[0]] == row;
  }

  lemma LongRowReads(strict: bool, row: Row, line: string, rest: string)
    requires |row| > 1 && line == CsvLine(row[1..])
    requires Read(strict, FieldStart, line + rest)
          == if AllReadable(strict, row[1..]) then RowThen(row[1..], AfterField(strict, rest)) else None
    ensures Read(strict, FieldStart, CsvLine(row) + rest)
         == if AllReadable(strict, row) then RowThen(row, AfterField(strict, rest)) else None
  {
    CsvLineSplits(row);
    assert CsvLine(row) + rest == EscapeCsvField(row[0]) + ([','] + (line + rest));
    FieldThenRowReads(strict, row, line + rest, AfterField(strict, rest));
  }

  lemma {:induction false} RowReads(strict: bool, row: Row, rest: string)
    requires row != [] && (rest == "" || rest[0] == '\n')
    ensures Read(strict, FieldStart, CsvLine(row) + rest)
         == if AllReadable(strict, row) then RowThen(row, AfterField(strict, rest)) else None
    decreases |row|
  {
    if |row| == 1 {
      OneFieldReads(strict, row, rest);
    } else {
      RowReads(strict, row[1..], rest);
      LongRowReads(strict, row, CsvLine(row[1..]), rest);
    }
  }

  lemma RecordStartsEmpty(strict: bool, rest: string)
    requires rest == "" || rest[0] == '\n'
    ensures AfterField(strict, rest).Some? ==> AfterField(strict, rest).value[0] == [""]
  {
  }

  predicate TableReadable(strict: bool, rows: seq<Row>) {
    forall i :: 0 <= i < |rows| ==> AllReadable(strict, rows[i])
  }

  lemma LinesSplit(rows: seq<Row>)
    requires |rows| > 1
    ensures Join(CsvLines(rows), '\n') == CsvLine(rows[0]) + ("\n" + Join(CsvLines(rows[1..]), '\n'))
  {
    assert CsvLines(rows)[1..] == CsvLines(rows[1..]);
    assert ['\n'] == "\n";
  }

  /** After a line feed the rest is read as records of its own. */
  lemma NextRecordReads(strict: bool, row: Row, tail: string, rest: Option<seq<Row>>)
    requires Read(strict, FieldStart, tail) == rest
    ensures RowThen(row, AfterField(strict, "\n" + tail)) == if rest.None? then None else Some([row] + rest.value)
  {
    assert "\n" + tail == ['\n'] + tail;
    ReadsOne(strict, Plain, '\n', tail);
    if rest.Some? {
      assert ([[""]] + rest.value)[1..] == rest.value;
    }
  }

  lemma OneRowReads(strict: bool, row: Row)
    requires row != []
    ensures Read(strict, FieldStart, Join(CsvLines([row]), '\n')) == if AllReadable(strict, row) then Some([row])
        else None
  {
    assert CsvLines([row]) == [CsvLine(row)];
    assert CsvLine(row) + "" == CsvLine(row);
    RowReads(strict, row, "");
    assert [row] + [[""]][1..] == [row];
  }

  lemma {:induction false} TableReads(strict: bool, rows: seq<Row>)
    requires rows != [] && forall i :: 0 <= i < |rows| ==> rows[i] != []
    ensures Read(strict, FieldStart, Join(CsvLines(rows), '\n'))
         == if TableReadable(strict, rows) then Some(rows) else None
    decreases |rows|
  {
    TableReadableSplits(strict, rows);
    if |rows| == 1 {
      OneRowReads(strict, rows[0]);
      assert rows == [rows[0]];
    } else {
      var tail := Join(CsvLines(rows[1..]), '\n');
      LinesSplit(rows);
      RowReads(strict, rows[0], "\n" + tail);
      TableReads(strict, rows[1..]);
      NextRecordReads(strict, rows[0], tail, Read(strict, FieldStart, tail));
      assert [rows[0]] + rows[1..] == rows;
    }
  }

  lemma {:induction false} UnquotedMap(row: Row)
    requires forall i :: 0 <= i < |row| ==> !NeedsQuotes(row[i])
    ensures Map(EscapeCsvField, row) == row
  {
    if row != [] {
      forall i | 0 <= i < |row[1..]| ensures !NeedsQuotes(row[1..][i])
      {
        assert row[1..][i] == row[i + 1];
      }
      UnquotedMap(row[1..]);
      assert [row[0]] + row[1..] == row;
    }
  }

  predicate Bare(f: Field) {
    !NeedsQuotes(f) && '\r' !in f
  }

  /** The export with any bare header, read back. */
  lemma ExportReads(strict: bool, headers: Row, rows: seq<Row>)
    requires headers != [] && forall i :: 0 <= i < |headers| ==> Bare(headers[i])
    requires forall i :: 0 <= i < |rows| ==> rows[i] != []
    ensures Read(strict, FieldStart, Export(headers, rows))
         == if TableReadable(strict, rows) then Some([headers] + rows) else None
  {
    var table := [headers] + rows;
    assert table[1..] == rows;
    UnquotedMap(headers);
    assert CsvLines(table) == [CsvLine(headers)] + CsvLines(rows);
    TableReads(strict, table);
    assert AllReadable(strict, headers);
    TableReadableSplits(strict, table);
  }

  lemma TableReadableSplits(strict: bool, rows: seq<Row>)
    requires rows != []
    ensures TableReadable(strict, rows) <==> AllReadable(strict, rows[0]) && TableReadable(strict, rows[1..])
  {
    forall i | 0 <= i < |rows[1..]| ensures rows[1..][i] == rows[i + 1] {}
    if AllReadable(strict, rows[0]) && TableReadable(strict, rows[1..]) {
      forall i | 0 <= i < |rows| ensures AllReadable(strict, rows[i])
      {
        if i > 0 { assert rows[i] == rows[1..][i - 1]; }
      }
    }
  }

  predicate Letter(c: char) {
    'a' <= c <= 'z' || 'A' <= c <= 'Z'
  }

  lemma LettersAreBare(f: Field)
    requires forall i :: 0 <= i < |f| ==> Letter(f[i])
    ensures Bare(f)
  {
  }

  lemma FirstHeadersAreBare()
    ensures forall i :: 0 <= i < 7 ==> Bare(HEADERS[i])
  {
    LettersAreBare("id");
    LettersAreBare("email");
    LettersAreBare("displayName");
    LettersAreBare("mode");
    LettersAreBare("role");
    LettersAreBare("isActivated");
    LettersAreBare("isBlocked");
  }

  lemma NextHeadersAreBare()
    ensures forall i :: 7 <= i < 11 ==> Bare(HEADERS[i])
  {
    LettersAreBare("blockedAt");
    LettersAreBare("blockedReason");
    LettersAreBare("appearInSearches");
    LettersAreBare("appearInDiscoveryGame");
  }

  lemma LastHeadersAreBare()
    ensures forall i :: 11 <= i < 14 ==> Bare(HEADERS[i])
  {
    LettersAreBare("hasDiscoveryAccess");
    LettersAreBare("createdAt");
    LettersAreBare("updatedAt");
  }

  lemma HeadersAreBare()
    ensures HEADERS != [] && forall i :: 0 <= i < |HEADERS| ==> Bare(HEADERS[i])
  {
    FirstHeadersAreBare();
    NextHeadersAreBare();
    LastHeadersAreBare();
  }

  /** Reading the export gives back the header and exactly the original rows, for arbitrary field contents. */
  lemma ExportReadsBack(rows: seq<Row>)
    requires forall i :: 0 <= i < |rows| ==> rows[i] != []
    ensures Read(false, FieldStart, ExportUsers(rows)) == Some([HEADERS] + rows)
  {
    HeadersAreBare();
    ExportReads(false, HEADERS, rows);
  }

  /** Different tables never export to the same text. */
  lemma ExportIsInjective(rows: seq<Row>, rows': seq<Row>)
    requires forall i :: 0 <= i < |rows| ==> rows[i] != []
    requires forall i :: 0 <= i < |rows'| ==> rows'[i] != []
    requires ExportUsers(rows) == ExportUsers(rows')
    ensures rows == rows'
  {
    ExportReadsBack(rows);
    ExportReadsBack(rows');
    assert ([HEADERS] + rows)[1..] == rows && ([HEADERS] + rows')[1..] == rows';
  }

  /** A reader that takes a carriage return for a line break accepts the export exactly when every field
      with a carriage return also contains a comma, a quote or a line feed; then it reads the same rows. */
  lemma StrictReaderNeedsQuotedReturns(rows: seq<Row>)
    requires forall i :: 0 <= i < |rows| ==> rows[i] != []
    ensures Read(true, FieldStart, ExportUsers(rows))
         == if forall i, j :: 0 <= i < |rows| && 0 <= j < |rows[i]| && '\r' in rows[i][j] ==> NeedsQuotes(rows[i][j])
            then Some([HEADERS] + rows) else None
  {
    HeadersAreBare();
    ExportReads(true, HEADERS, rows);
    ReturnsQuoted(rows);
  }

  lemma ReturnsQuoted(rows: seq<Row>)
    ensures TableReadable(true, rows)
       <==> forall i, j :: 0 <= i < |rows| && 0 <= j < |rows[i]| && '\r' in rows[i][j] ==> NeedsQuotes(rows[i][j])
  {
    if TableReadable(true, rows) {
      forall i, j | 0 <= i < |rows| && 0 <= j < |rows[i]| && '\r' in rows[i][j]
        ensures NeedsQuotes(rows[i][j])
      {
        assert AllReadable(true, rows[i]) && Readable(true, rows[i][j]);
      }
    }
  }
}
