/** The CSV files of the channel and payment evidence scripts, and a reader for the quoting rules of
    section 2 of RFC 4180 (with LF as the line end), written without reference to the writer. */
module Csv {
  import opened Common

  // ---------------------------------------------------------------------------------------------
  // The writer
  // ---------------------------------------------------------------------------------------------

  predicate Special(c: char) {
    c == '"' || c == ',' || c == '\r' || c == '\n'
  }

  predicate Plain(text: string) {
    forall c <- text :: !Special(c)
  }

  function DoubleQuotes(text: string): string {
    if text == "" then ""
    else (if text[0] == '"' then "\"\"" else [text[0]]) + DoubleQuotes(text[1..])
  }

  function CsvValue(value: Option<string>): string {
    var text := Text(value);
    if Plain(text) then text else "\"" + DoubleQuotes(text) + "\""
  }

  type Row = seq<Option<string>>

  function Written(row: Row): seq<string> {
    seq(|row|, i requires 0 <= i < |row| => CsvValue(row[i]))
  }

  function Line(row: Row): string {
    Join(Written(row), ",")
  }

  function Lines(rows: seq<Row>): seq<string> {
    seq(|rows|, i requires 0 <= i < |rows| => Line(rows[i]))
  }

  function WriteCsv(columns: seq<string>, rows: seq<Row>): string {
    Join([Join(columns, ",")] + Lines(rows), "\n") + "\n"
  }

  function Texts(row: Row): seq<string> {
    seq(|row|, i requires 0 <= i < |row| => Text(row[i]))
  }

  // ---------------------------------------------------------------------------------------------
  // The reader
  // ---------------------------------------------------------------------------------------------

  /** Inside quotes: two quotes stand for one, a single quote ends the field. */
  function ReadQuoted(text: string): (r: Option<(string, string)>)
    ensures r.Some? ==> |r.value.1| <= |text|
  {
    if text == "" then None
    else if text[0] != '"' then
      match ReadQuoted(text[1..])
      case None => None
      case Some((field, rest)) => Some(([text[0]] + field, rest))
    else if |text| > 1 && text[1] == '"' then
      match ReadQuoted(text[2..])
      case None => None
      case Some((field, rest)) => Some(("\"" + field, rest))
    else Some(("", text[1..]))
  }

  /** Outside quotes: everything up to a comma or line end; quotes and carriage returns are errors. */
  function ReadPlain(text: string): (r: Option<(string, string)>)
    ensures r.Some? ==> |r.value.1| <= |text|
  {
    if text == "" || text[0] == ',' || text[0] == '\n' then Some(("", text))
    else if text[0] == '"' || text[0] == '\r' then None
    else
      match ReadPlain(text[1..])
      case None => None
      case Some((field, rest)) => Some(([text[0]] + field, rest))
  }

  function ReadField(text: string): (r: Option<(string, string)>)
    ensures r.Some? ==> |r.value.1| <= |text|
  {
    if text != "" && text[0] == '"' then ReadQuoted(text[1..]) else ReadPlain(text)
  }

  /** One record: fields separated by commas, up to a line end or the end of the text. */
  function ReadRecord(text: string): (r: Option<(seq<string>, string)>)
    ensures r.Some? ==> |r.value.1| <= |text|
    decreases |text|
  {
    match ReadField(text)
    case None => None
    case Some((field, rest)) =>
      if rest == "" || rest[0] == '\n' then Some(([field], rest))
      else if rest[0] != ',' then None
      else
        match ReadRecord(rest[1..])
        case None => None
        case Some((fields, rest')) => Some(([field] + fields, rest'))
  }

  function ReadFile(text: string): Option<seq<seq<string>>>
    decreases |text|
  {
    if text == "" then Some([])
    else
      match ReadRecord(text)
      case None => None
      case Some((record, rest)) =>
        if rest == "" || rest[0] != '\n' then None
        else
          match ReadFile(rest[1..])
          case None => None
          case Some(records) => Some([record] + records)
  }

  // ---------------------------------------------------------------------------------------------
  // Reading back what was written
  // ---------------------------------------------------------------------------------------------

  /** What may follow a field. */
  predicate EndsField(rest: string) {
    rest == "" || rest[0] == ',' || rest[0] == '\n'
  }

  lemma {:induction false} ReadQuotedBack(text: string, rest: string)
    requires EndsField(rest)
    ensures ReadQuoted(DoubleQuotes(text) + ("\"" + rest)) == Some((text, rest))
  {
    var written := DoubleQuotes(text) + ("\"" + rest);
    if text == "" {
      assert written == "\"" + rest;
      assert written[1..] == rest;
    } else {
      ReadQuotedBack(text[1..], rest);
      var tail := DoubleQuotes(text[1..]) + ("\"" + rest);
      assert text == [text[0]] + text[1..];
      if text[0] == '"' {
        assert written == "\"\"" + tail;
        assert written[2..] == tail;
      } else {
        assert written == [text[0]] + tail;
        assert written[1..] == tail;
      }
    }
  }

  lemma {:induction false} ReadPlainBack(text: string, rest: string)
    requires Plain(text) && EndsField(rest)
    ensures ReadPlain(text + rest) == Some((text, rest))
  {
    if text == "" {
      assert text + rest == rest;
    } else {
      assert Special(text[0]) || !Special(text[0]);
      assert Plain(text[1..]) by { assert forall c <- text[1..] :: c in text; }
      ReadPlainBack(text[1..], rest);
      assert (text + rest)[1..] == text[1..] + rest;
      assert text == [text[0]] + text[1..];
    }
  }

  lemma ReadPlainFieldBack(text: string, rest: string)
    requires Plain(text) && EndsField(rest)
    ensures ReadField(text + rest) == Some((text, rest))
  {
    ReadPlainBack(text, rest);
    if text != "" {
      assert !Special(text[0]);
    }
  }

  lemma BehindTheQuote(inner: string, rest: string)
    ensures var written := ("\"" + inner + "\"") + rest;
            written[0] == '"' && written[1..] == inner + ("\"" + rest)
  {
  }

  lemma ReadQuotedFieldBack(text: string, rest: string)
    requires EndsField(rest)
    ensures ReadField(("\"" + DoubleQuotes(text) + "\"") + rest) == Some((text, rest))
  {
    BehindTheQuote(DoubleQuotes(text), rest);
    ReadQuotedBack(text, rest);
  }

  lemma ReadFieldBack(value: Option<string>, rest: string)
    requires EndsField(rest)
    ensures ReadField(CsvValue(value) + rest) == Some((Text(value), rest))
  {
    if Plain(Text(value)) {
      ReadPlainFieldBack(Text(value), rest);
    } else {
      ReadQuotedFieldBack(Text(value), rest);
    }
  }

  lemma JoinFirst(parts: seq<string>, separator: string, rest: string)
    requires |parts| > 1
    ensures Join(parts, separator) + rest == parts[0] + (separator + (Join(parts[1..], separator) + rest))
  {
  }

  lemma LineParts(row: Row, rest: string)
    requires |row| > 1
    ensures Line(row) + rest == CsvValue(row[0]) + ("," + (Line(row[1..]) + rest))
    ensures Texts(row) == [Text(row[0])] + Texts(row[1..])
  {
    RowParts(row);
    JoinFirst(Written(row), ",", rest);
  }

  lemma RowParts(row: Row)
    requires row != []
    ensures |Written(row)| == |row| && Written(row)[0] == CsvValue(row[0]) && Written(row)[1..] == Written(row[1..])
    ensures Texts(row) == [Text(row[0])] + Texts(row[1..])
  {
  }

  /** A record is read back: its first field, and the rest of the record after the comma. */
  lemma ReadFirstField(value: Option<string>, others: string, record: seq<string>, rest: string)
    requires ReadRecord(others) == Some((record, rest))
    ensures ReadRecord(CsvValue(value) + ("," + others)) == Some(([Text(value)] + record, rest))
  {
    ReadFieldBack(value, "," + others);
    assert ("," + others)[1..] == others;
  }

  lemma ReadOnlyField(value: Option<string>, rest: string)
    requires rest == "" || rest[0] == '\n'
    ensures ReadRecord(CsvValue(value) + rest) == Some(([Text(value)], rest))
  {
    ReadFieldBack(value, rest);
  }

  lemma {:induction false} ReadRecordBack(row: Row, rest: string)
    requires |row| > 0 && (rest == "" || rest[0] == '\n')
    ensures ReadRecord(Line(row) + rest) == Some((Texts(row), rest))
    decreases |row|
  {
    if |row| == 1 {
      ReadOnlyField(row[0], rest);
      assert Texts(row) == [Text(row[0])];
    } else {
      LineParts(row, rest);
      ReadRecordBack(row[1..], rest);
      ReadFirstField(row[0], Line(row[1..]) + rest, Texts(row[1..]), rest);
    }
  }

  function AllTexts(rows: seq<Row>): seq<seq<string>> {
    seq(|rows|, i requires 0 <= i < |rows| => Texts(rows[i]))
  }

  lemma ReadFirstRecord(row: Row, others: string, records: seq<seq<string>>)
    requires |row| > 0 && ReadFile(others) == Some(records)
    ensures ReadFile(Line(row) + ("\n" + others)) == Some([Texts(row)] + records)
  {
    ReadRecordBack(row, "\n" + others);
    assert ("\n" + others)[1..] == others;
  }

  lemma {:induction false} ReadFileBack(rows: seq<Row>)
    requires |rows| > 0 && forall row <- rows :: |row| > 0
    ensures ReadFile(Join(Lines(rows), "\n") + "\n") == Some(AllTexts(rows))
    decreases |rows|
  {
    var row, tail := rows[0], rows[1..];
    assert row in rows;
    assert AllTexts(rows) == [Texts(row)] + AllTexts(tail);
    if |rows| == 1 {
      ReadFirstRecord(row, "", []);
      assert "\n" + "" == "\n" && Join(Lines(rows), "\n") == Line(row);
    } else {
      assert forall r <- tail :: r in rows;
      ReadFileBack(tail);
      ReadFirstRecord(row, Join(Lines(tail), "\n") + "\n", AllTexts(tail));
      JoinFirst(Lines(rows), "\n", "\n");
      assert Lines(rows)[1..] == Lines(tail);
    }
  }

  /** The header as a row of values: plain names are written as they are. */
  function Header(columns: seq<string>): Row {
    seq(|columns|, i requires 0 <= i < |columns| => Some(columns[i]))
  }

  ghost predicate PlainColumns(columns: seq<string>) {
    |columns| > 0 && forall c <- columns :: Plain(c)
  }

  lemma HeaderLine(columns: seq<string>)
    requires PlainColumns(columns)
    ensures Line(Header(columns)) == Join(columns, ",")
    ensures Texts(Header(columns)) == columns
  {
    assert Written(Header(columns)) == columns;
  }

  lemma FirstRow(first: Row, rows: seq<Row>)
    ensures Lines([first] + rows) == [Line(first)] + Lines(rows)
    ensures AllTexts([first] + rows) == [Texts(first)] + AllTexts(rows)
  {
  }

  /** Any number of rows of arbitrary text, each as wide as the header, are read back exactly. */
  lemma RoundTrip(columns: seq<string>, rows: seq<Row>)
    requires PlainColumns(columns) && forall row <- rows :: |row| == |columns|
    ensures ReadFile(WriteCsv(columns, rows)) == Some([columns] + AllTexts(rows))
  {
    HeaderLine(columns);
    FirstRow(Header(columns), rows);
    ReadFileBack([Header(columns)] + rows);
  }

  /** Cell by cell: what is read back in a cell is its text, and nothing where there was no value. */
  lemma RoundTripCells(columns: seq<string>, rows: seq<Row>, i: nat, k: nat)
    requires PlainColumns(columns) && forall row <- rows :: |row| == |columns|
    requires i < |rows| && k < |columns|
    ensures var read := ReadFile(WriteCsv(columns, rows));
            && read.Some? && |read.value| == |rows| + 1 && read.value[0] == columns
            && |read.value[i + 1]| == |columns|
            && (rows[i][k].Some? ==> read.value[i + 1][k] == rows[i][k].value)
            && (rows[i][k].None? ==> read.value[i + 1][k] == "")
  {
    RoundTrip(columns, rows);
    assert |rows[i]| == |columns| by { assert rows[i] in rows; }
    CellOf(columns, rows, i, k);
  }

  lemma CellOf(columns: seq<string>, rows: seq<Row>, i: nat, k: nat)
    requires i < |rows| && k < |rows[i]|
    ensures var records := [columns] + AllTexts(rows);
            && |records| == |rows| + 1 && records[0] == columns && |records[i + 1]| == |rows[i]|
            && (rows[i][k].Some? ==> records[i + 1][k] == rows[i][k].value)
            && (rows[i][k].None? ==> records[i + 1][k] == "")
  {
    assert ([columns] + AllTexts(rows))[i + 1] == Texts(rows[i]);
  }

  /** Hence different contents are written differently. */
  lemma WriterIsInjective(columns: seq<string>, a: seq<Row>, b: seq<Row>)
    requires PlainColumns(columns)
    requires forall row <- a :: |row| == |columns|
    requires forall row <- b :: |row| == |columns|
    ensures WriteCsv(columns, a) == WriteCsv(columns, b) <==> AllTexts(a) == AllTexts(b)
  {
    RoundTrip(columns, a);
    RoundTrip(columns, b);
    if AllTexts(a) == AllTexts(b) {
      SameTextsSameLines(a, b);
    } else {
      assert ([columns] + AllTexts(a))[1..] == AllTexts(a);
      assert ([columns] + AllTexts(b))[1..] == AllTexts(b);
    }
  }

  lemma SameTextsSameLines(a: seq<Row>, b: seq<Row>)
    requires AllTexts(a) == AllTexts(b)
    ensures Lines(a) == Lines(b)
  {
    assert |a| == |AllTexts(a)| == |b|;
    forall i | 0 <= i < |a|
      ensures Line(a[i]) == Line(b[i])
    {
      assert Texts(a[i]) == AllTexts(a)[i] == Texts(b[i]);
      assert |a[i]| == |Texts(a[i])| == |b[i]|;
      assert Written(a[i]) == Written(b[i]) by {
        forall k | 0 <= k < |a[i]|
          ensures CsvValue(a[i][k]) == CsvValue(b[i][k])
        {
          assert Texts(a[i])[k] == Texts(b[i])[k];
        }
      }
    }
  }
}
