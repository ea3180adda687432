/**
 * The CSV export of a table: a header line with the first row's property
 * names, then one line per row with its values in header order. A value is
 * quoted only when it contains a comma, and lines are separated by a bare
 * line feed; against RFC 4180 section 2 this is a partial encoder (rule 2 asks
 * for CRLF, rule 6 also asks to quote fields holding quotes or line breaks).
 */
module CsvExporter {
  import opened Js
  import opened Seqs
  import opened JsObject

  /** A row of a table: a plain object of primitive values. */
  type Row = Record<Value>

  /** `Object.keys(row)` */
  function ObjectKeys(row: Row): (keys: seq<string>)
    ensures multiset(keys) == multiset(Keys(row))
  {
    KeysPermutation(Entries(row), row);
    Keys(Entries(row))
  }

  /** `value === null || value === undefined ? '' : String(value)`; a missing property reads as undefined. */
  function CellText(value: Option<Value>): (text: string)
    ensures value.None? || value.value.Null? || value.value.Undefined? ==> text == ""
    ensures value.Some? && !value.value.Null? && !value.value.Undefined? ==> text == ValueString(value.value)
  {
    match value
    case None => ""
    case Some(Null) => ""
    case Some(Undefined) => ""
    case Some(v) => ValueString(v)
  }

  /** `s.replace(/"/g, '""')` */
  function DoubleQuotes(s: string): string
  {
    if s == [] then [] else (if s[0] == '"' then "\"\"" else [s[0]]) + DoubleQuotes(s[1..])
  }

  /** The field text of one value: enclosed in quotes, inner quotes doubled, only when it holds a comma. */
  function EscapeField(s: string): (field: string)
    ensures ',' !in s ==> field == s
    ensures ',' in s ==> DecodeField(field) == s && field[0] == '"' && field[|field| - 1] == '"'
  {
    IncludesChar(s, ',');
    if Includes(s, ",") then
      var field := "\"" + DoubleQuotes(s) + "\"";
      assert field[1..|field| - 1] == DoubleQuotes(s);
      UndoubleDouble(s);
      field
    else s
  }

  // ---------------------------------------------------------------------------
  // Reading a field back, as RFC 4180 section 2 describes it

  /** Inside an enclosed field a pair of quotes stands for one quote (rule 7). */
  function UndoubleQuotes(t: string): string
    decreases |t|
  {
    if t == [] then []
    else if |t| >= 2 && t[0] == '"' && t[1] == '"' then "\"" + UndoubleQuotes(t[2..])
    else [t[0]] + UndoubleQuotes(t[1..])
  }

  /**
   * What a reader following rules 5 to 7 makes of one field's text: a field
   * enclosed in quotes loses them and has its doubled quotes undone; any
   * other field is taken as it stands.
   */
  function DecodeField(f: string): string
  {
    if |f| >= 2 && f[0] == '"' && f[|f| - 1] == '"' then UndoubleQuotes(f[1..|f| - 1]) else f
  }

  /** Undoing the doubling gives the original text back. */
  lemma {:induction false} UndoubleDouble(s: string)
    ensures UndoubleQuotes(DoubleQuotes(s)) == s
  {
    if s != [] {
      UndoubleDouble(s[1..]);
      var rest := DoubleQuotes(s[1..]);
      if s[0] == '"' {
        assert DoubleQuotes(s) == "\"\"" + rest;
        assert ("\"\"" + rest)[2..] == rest;
      } else {
        assert DoubleQuotes(s) == [s[0]] + rest;
        assert ([s[0]] + rest)[1..] == rest;
      }
      assert s == [s[0]] + s[1..];
    }
  }

  /**
   * A value without a comma is written as it is, even when it is enclosed in
   * quotes itself, so a reader following RFC 4180 takes the quotes off:
   * the value `"ok"` comes back as `ok`.
   */
  lemma QuotedValueWithoutCommaMisread()
    ensures EscapeField("\"ok\"") == "\"ok\""
    ensures DecodeField(EscapeField("\"ok\"")) == "ok"
  {
    var s := "\"ok\"";
    assert ',' !in s;
    assert s[1..|s| - 1] == "ok";
    assert UndoubleQuotes("ok") == "ok" by {
      assert "ok"[1..] == "k";
      assert "k"[1..] == "";
    }
  }

  // ---------------------------------------------------------------------------
  // Building the text

  const Comma := ","
  const LineFeed := "\n"

  /** `headers.map(...)` for one row: `row[header]`, turned to text and escaped, for each header. */
  function Fields(headers: seq<string>, row: Row): (fields: seq<string>)
    ensures |fields| == |headers|
    ensures forall j :: 0 <= j < |headers| ==> fields[j] == EscapeField(CellText(Get(row, headers[j])))
  {
    if headers == [] then []
    else [EscapeField(CellText(Get(row, headers[0])))] + Fields(headers[1..], row)
  }

  /** `values.join(',')` */
  function RecordLine(headers: seq<string>, row: Row): string
  {
    Join(Fields(headers, row), Comma)
  }

  /** The lines the `forEach` pushes, one per row, in order. */
  function RecordLines(headers: seq<string>, data: seq<Row>): (lines: seq<string>)
    ensures |lines| == |data|
    ensures forall i :: 0 <= i < |data| ==> lines[i] == RecordLine(headers, data[i])
  {
    if data == [] then []
    else RecordLines(headers, data[..|data| - 1]) + [RecordLine(headers, data[|data| - 1])]
  }

  /** `csvRows`: the header line followed by one line per row. */
  function CsvLines(data: seq<Row>): (lines: seq<string>)
    requires data != []
    ensures |lines| == |data| + 1
    ensures lines[0] == Join(ObjectKeys(data[0]), Comma)
    ensures forall i :: 0 <= i < |data| ==> lines[i + 1] == RecordLine(ObjectKeys(data[0]), data[i])
  {
    [Join(ObjectKeys(data[0]), Comma)] + RecordLines(ObjectKeys(data[0]), data)
  }

  /** The text `exportToCSV` hands to the download; no text at all for an empty table. */
  function CsvText(data: seq<Row>): (csv: Option<string>)
    ensures csv.None? <==> data == []
  {
    if data == [] then None else Some(Join(CsvLines(data), LineFeed))
  }

  /** `exportToCSV` up to the download: the loop pushes one line per row onto `csvRows`. */
  method ExportToCsv(data: seq<Row>) returns (csv: Option<string>)
    ensures csv == CsvText(data)
  {
    if |data| == 0 {
      return None;
    }
    var headers := ObjectKeys(data[0]);
    var csvRows := [Join(headers, Comma)];
    for i := 0 to |data|
      invariant csvRows == [Join(headers, Comma)] + RecordLines(headers, data[..i])
    {
      var values := Fields(headers, data[i]);
      RecordLinesStep(headers, data, i);
      csvRows := csvRows + [Join(values, Comma)];
    }
    assert data[..|data|] == data;
    csv := Some(Join(csvRows, LineFeed));
  }

  lemma RecordLinesStep(headers: seq<string>, data: seq<Row>, i: nat)
    requires i < |data|
    ensures RecordLines(headers, data[..i + 1]) == RecordLines(headers, data[..i]) + [RecordLine(headers, data[i])]
  {
    assert data[..i + 1][..i] == data[..i];
  }

  // ---------------------------------------------------------------------------
  // Reading the text back

  /** No header and no value of any row holds a line feed. */
  predicate NoLineBreaks(data: seq<Row>)
    requires data != []
  {
    (forall h :: h in ObjectKeys(data[0]) ==> '\n' !in h)
    && forall i, h :: 0 <= i < |data| && h in ObjectKeys(data[0]) ==> '\n' !in CellText(Get(data[i], h))
  }

  /**
   * Split at line feeds, the text gives back the header line and then each
   * row's line, one per row, as long as no header or value holds a line feed
   * (those are written unquoted and break the row across lines).
   */
  lemma LinesOfCsv(data: seq<Row>)
    requires data != [] && NoLineBreaks(data)
    ensures Split(CsvText(data).value, '\n') == CsvLines(data)
    ensures |Split(CsvText(data).value, '\n')| == |data| + 1
  {
    var headers := ObjectKeys(data[0]);
    var lines := CsvLines(data);
    forall i | 0 <= i < |lines|
      ensures '\n' !in lines[i]
    {
      if i == 0 {
        NoCharInJoin(headers, Comma, '\n');
      } else {
        NoLineBreakInRecord(headers, data[i - 1]);
      }
    }
    SplitJoin(lines, '\n');
  }

  lemma NoLineBreakInRecord(headers: seq<string>, row: Row)
    requires forall h :: h in headers ==> '\n' !in CellText(Get(row, h))
    ensures '\n' !in RecordLine(headers, row)
  {
    var fields := Fields(headers, row);
    forall j | 0 <= j < |fields|
      ensures '\n' !in fields[j]
    {
      NoCharInEscape(CellText(Get(row, headers[j])), '\n');
    }
    NoCharInJoin(fields, Comma, '\n');
  }

  /**
   * When no value of the row holds a comma, splitting its line at commas
   * gives the values' texts in header order: nothing is quoted.
   */
  lemma FieldsOfLine(headers: seq<string>, row: Row)
    requires |headers| >= 1
    requires forall h :: h in headers ==> ',' !in CellText(Get(row, h))
    ensures var fields := Split(RecordLine(headers, row), ',');
      |fields| == |headers| && forall j :: 0 <= j < |headers| ==> fields[j] == CellText(Get(row, headers[j]))
  {
    SplitJoin(Fields(headers, row), ',');
  }

  lemma {:induction false} NoCharInJoin(parts: seq<string>, sep: string, c: char)
    requires c !in sep
    requires forall i :: 0 <= i < |parts| ==> c !in parts[i]
    ensures c !in Join(parts, sep)
  {
    if |parts| > 1 {
      NoCharInJoin(parts[1..], sep, c);
    }
  }

  lemma {:induction false} NoCharInDoubled(s: string, c: char)
    requires c !in s && c != '"'
    ensures c !in DoubleQuotes(s)
  {
    if s != [] {
      NoCharInDoubled(s[1..], c);
    }
  }

  lemma NoCharInEscape(s: string, c: char)
    requires c !in s && c != '"'
    ensures c !in EscapeField(s)
  {
    NoCharInDoubled(s, c);
  }
}
