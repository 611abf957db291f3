// The risk register export and a reader after section 2 of RFC 4180.
module RiskCsv {
  import opened Wrappers

  /** A projected row; None stands for null or undefined, numbers come as their text. */
  datatype RiskRow = RiskRow(
    id: Option<string>,
    organization: Option<string>,
    inspectionId: Option<string>,
    department: Option<string>,
    issuedDate: Option<string>,
    dueDate: Option<string>,
    status: Option<string>,
    riskLevel: Option<string>,
    likelihood: Option<string>,
    impact: Option<string>,
    riskScore: Option<string>,
    overdueCap: bool)

  const COLUMNS: seq<string> := [
    "Finding ID", "Organization", "Inspection", "Department", "Issued Date", "Due Date",
    "Status", "Risk Level", "Likelihood", "Impact", "Risk Score", "Overdue CAP"]

  function Text(value: Option<string>): string {
    match value
    case Some(text) => text
    case None => ""
  }

  function Cells(row: RiskRow): (cells: seq<string>)
    ensures |cells| == 12
  {
    [Text(row.id), Text(row.organization), Text(row.inspectionId), Text(row.department),
     Text(row.issuedDate), Text(row.dueDate), Text(row.status), Text(row.riskLevel),
     Text(row.likelihood), Text(row.impact), Text(row.riskScore),
     if row.overdueCap then "Yes" else "No"]
  }

  /** replace(/"/g, '""') */
  function Doubled(s: string): string {
    if s == [] then [] else (if s[0] == '\"' then "\"\"" else [s[0]]) + Doubled(s[1..])
  }

  function PrintCell(text: string): string {
    "\"" + Doubled(text) + "\""
  }

  /** map(managerRiskCsvCell).join(',') */
  function PrintRow(cells: seq<string>): string
    requires cells != []
  {
    if |cells| == 1 then PrintCell(cells[0]) else PrintCell(cells[0]) + "," + PrintRow(cells[1..])
  }

  /** join('\r\n') of the printed rows. */
  function PrintRows(rows: seq<seq<string>>): string
    requires rows != [] && forall i :: 0 <= i < |rows| ==> rows[i] != []
  {
    if |rows| == 1 then PrintRow(rows[0]) else PrintRow(rows[0]) + "\r\n" + PrintRows(rows[1..])
  }

  function Table(rows: seq<RiskRow>): (table: seq<seq<string>>)
    ensures |table| == |rows| + 1
    ensures forall i :: 0 <= i < |table| ==> table[i] != []
  {
    [COLUMNS] + seq(|rows|, i requires 0 <= i < |rows| => Cells(rows[i]))
  }

  const BOM: char := '\U{FEFF}'

  function Csv(rows: seq<RiskRow>): string {
    [BOM] + PrintRows(Table(rows))
  }

  // ---------------------------------------------------------------- RFC 4180 reader

  /** Inside quotes: a doubled quote is one quote, a single one closes the field. */
  function ReadQuoted(s: string): (r: Option<(string, string)>)
    ensures r.Some? ==> |r.value.1| < |s|
  {
    if s == [] then None
    else if s[0] != '\"' then
      var (text, rest) :- ReadQuoted(s[1..]);
      Some(([s[0]] + text, rest))
    else if |s| > 1 && s[1] == '\"' then
      var (text, rest) :- ReadQuoted(s[2..]);
      Some((['\"'] + text, rest))
    else Some(([], s[1..]))
  }

  /** Outside quotes a field ends before a comma, a quote or a line break. */
  function ReadPlain(s: string): (r: (string, string))
    ensures |r.1| <= |s|
  {
    if s == [] || s[0] == ',' || s[0] == '\"' || s[0] == '\r' || s[0] == '\n' then ([], s)
    else
      var (text, rest) := ReadPlain(s[1..]);
      ([s[0]] + text, rest)
  }

  function ReadField(s: string): (r: Option<(string, string)>)
    ensures r.Some? ==> |r.value.1| <= |s|
  {
    if s != [] && s[0] == '\"' then ReadQuoted(s[1..]) else Some(ReadPlain(s))
  }

  function ReadRecord(s: string): (r: Option<(seq<string>, string)>)
    ensures r.Some? ==> |r.value.1| <= |s|
    decreases |s|
  {
    var (field, rest) :- ReadField(s);
    if rest != [] && rest[0] == ',' then
      var (fields, end) :- ReadRecord(rest[1..]);
      Some(([field] + fields, end))
    else Some(([field], rest))
  }

  /** Records separated by CRLF; the last one may or may not have one. */
  function ReadRecords(s: string): Option<seq<seq<string>>>
    decreases |s|
  {
    var (record, rest) :- ReadRecord(s);
    if rest == [] || rest == "\r\n" then Some([record])
    else if "\r\n" <= rest then
      var records :- ReadRecords(rest[2..]);
      Some([record] + records)
    else None
  }

  function ReadCsv(s: string): Option<seq<seq<string>>> {
    if s != [] && s[0] == BOM then ReadRecords(s[1..]) else ReadRecords(s)
  }

  // ---------------------------------------------------------------- round trip

  lemma ReadOne(c: char, tail: string, text: string, rest: string)
    requires ReadQuoted(tail) == Some((text, rest))
    ensures ReadQuoted((if c == '\"' then "\"\"" else [c]) + tail) == Some(([c] + text, rest))
  {
    if c == '\"' {
      assert ("\"\"" + tail)[2..] == tail;
    } else {
      assert ([c] + tail)[1..] == tail;
    }
  }

  lemma DoubledShape(text: string)
    requires text != []
    ensures Doubled(text) == (if text[0] == '\"' then "\"\"" else [text[0]]) + Doubled(text[1..])
  {
  }

  lemma {:induction false} ReadDoubled(text: string, rest: string)
    requires rest == [] || rest[0] != '\"'
    ensures ReadQuoted(Doubled(text) + ("\"" + rest)) == Some((text, rest))
  {
    var end := "\"" + rest;
    if text == [] {
      assert Doubled(text) + end == end;
    } else {
      hide ReadQuoted, Doubled;
      DoubledShape(text);
      ReadDoubled(text[1..], rest);
      var tail := Doubled(text[1..]) + end;
      ReadOne(text[0], tail, text[1..], rest);
      assert Doubled(text) + end == (if text[0] == '\"' then "\"\"" else [text[0]]) + tail;
      assert [text[0]] + text[1..] == text;
    }
  }

  lemma ReadPrintedCell(text: string, rest: string)
    requires rest == [] || rest[0] != '\"'
    ensures ReadField(PrintCell(text) + rest) == Some((text, rest))
  {
    ReadDoubled(text, rest);
    var s := PrintCell(text) + rest;
    assert s[1..] == Doubled(text) + ("\"" + rest);
  }

  lemma {:induction false} ReadPrintedRow(cells: seq<string>, rest: string)
    requires cells != []
    requires rest == [] || rest[0] == '\r'
    ensures ReadRecord(PrintRow(cells) + rest) == Some((cells, rest))
    decreases |cells|
  {
    hide PrintCell, ReadField;
    if |cells| == 1 {
      ReadPrintedCell(cells[0], rest);
      assert cells == [cells[0]];
    } else {
      var tail := PrintRow(cells[1..]) + rest;
      ReadPrintedRow(cells[1..], rest);
      ReadPrintedCell(cells[0], "," + tail);
      assert PrintRow(cells) + rest == PrintCell(cells[0]) + ("," + tail);
      assert ("," + tail)[1..] == tail;
      assert [cells[0]] + cells[1..] == cells;
    }
  }

  lemma PrintRowStarts(cells: seq<string>)
    requires cells != []
    ensures PrintRow(cells) != [] && PrintRow(cells)[0] == '\"'
  {
  }

  lemma {:induction false} ReadPrintedRows(rows: seq<seq<string>>)
    requires rows != [] && forall i :: 0 <= i < |rows| ==> rows[i] != []
    ensures ReadRecords(PrintRows(rows)) == Some(rows)
    ensures PrintRows(rows) != []
    decreases |rows|
  {
    hide PrintRow, ReadRecord;
    PrintRowStarts(rows[0]);
    if |rows| == 1 {
      ReadPrintedRow(rows[0], []);
      assert PrintRow(rows[0]) + [] == PrintRow(rows[0]);
      assert rows == [rows[0]];
    } else {
      var tail := PrintRows(rows[1..]);
      ReadPrintedRows(rows[1..]);
      var rest := "\r\n" + tail;
      ReadPrintedRow(rows[0], rest);
      assert PrintRows(rows) == PrintRow(rows[0]) + rest;
      assert rest[2..] == tail;
      assert [rows[0]] + rows[1..] == rows;
    }
  }

  function OrEmpty(value: Option<string>): string {
    value.GetOr("")
  }

  /** What the table says of a finding, column by column; a missing value is an empty cell. */
  function Expected(row: RiskRow): seq<string> {
    [OrEmpty(row.id), OrEmpty(row.organization), OrEmpty(row.inspectionId), OrEmpty(row.department),
     OrEmpty(row.issuedDate), OrEmpty(row.dueDate), OrEmpty(row.status), OrEmpty(row.riskLevel),
     OrEmpty(row.likelihood), OrEmpty(row.impact), OrEmpty(row.riskScore), if row.overdueCap then "Yes" else "No"]
  }

  /** The reader recovers the header and every cell of every row, whatever their text. */
  lemma ReadBack(rows: seq<RiskRow>)
    ensures Csv(rows) != [] && Csv(rows)[0] == '\U{FEFF}'
    ensures var table := ReadRecords(Csv(rows)[1..]);
            && ReadCsv(Csv(rows)) == table && table.Some? && |table.value| == |rows| + 1
            && table.value[0] == [
                 "Finding ID", "Organization", "Inspection", "Department", "Issued Date", "Due Date",
                 "Status", "Risk Level", "Likelihood", "Impact", "Risk Score", "Overdue CAP"]
            && forall i :: 0 <= i < |rows| ==> table.value[i + 1] == Expected(rows[i])
  {
    hide ReadRecords, PrintRows, COLUMNS;
    ReadPrintedRows(Table(rows));
    assert Csv(rows)[1..] == PrintRows(Table(rows));
    HeaderIs();
  }

  lemma HeaderIs()
    ensures COLUMNS == [
      "Finding ID", "Organization", "Inspection", "Department", "Issued Date", "Due Date",
      "Status", "Risk Level", "Likelihood", "Impact", "Risk Score", "Overdue CAP"]
  {
  }
}
