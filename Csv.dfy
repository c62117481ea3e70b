/**
  * The CSV text both exports write: Python's `csv.writer` with its default
  * `excel` dialect (comma separator, `"` quote character doubled inside quoted
  * fields, minimal quoting, CRLF row terminator) into a buffer that is then
  * prefixed with a byte-order mark.
  *
  * A reader for the same format, following section 2 of RFC 4180, is the
  * partner of the writer: reading back what was written gives the rows.
  */
module Csv {
  import opened Wrappers

  /** The byte-order mark U+FEFF, put in front of the buffer so spreadsheets decode UTF-8. */
  const Bom: char := '\U{FEFF}'

  /** The excel dialect's `lineterminator`. */
  const Crlf: string := "\r\n"

  // ---------------------------------------------------------------- writing

  /** The characters that force a field to be quoted under minimal quoting. */
  predicate Special(c: char)
  {
    c == ',' || c == '"' || c == '\r' || c == '\n'
  }

  predicate NeedsQuoting(s: string)
  {
    exists i :: 0 <= i < |s| && Special(s[i])
  }

  /** Doubles every quote character (`doublequote=True`). */
  function Escape(s: string): string
  {
    if s == [] then []
    else (if s[0] == '"' then "\"\"" else [s[0]]) + Escape(s[1..])
  }

  /** One field: verbatim, or quoted when it contains a special character. */
  function RenderField(s: string): string
  {
    if NeedsQuoting(s) then "\"" + Escape(s) + "\"" else s
  }

  function RenderFields(fields: seq<string>): string
  {
    if fields == [] then ""
    else if |fields| == 1 then RenderField(fields[0])
    else RenderField(fields[0]) + "," + RenderFields(fields[1..])
  }

  /**
    * `writer.writerow(fields)`: the fields separated by commas and the row
    * terminated by CRLF; a row made of one empty field is written `""` so that
    * it does not read as a blank line.
    */
  function RenderRow(fields: seq<string>): string
  {
    (if fields == [""] then "\"\"" else RenderFields(fields)) + Crlf
  }

  function RenderRows(rows: seq<seq<string>>): string
  {
    if rows == [] then "" else RenderRow(rows[0]) + RenderRows(rows[1..])
  }

  /** The byte-order mark followed by `output.getvalue()` after writing every row. */
  function Document(rows: seq<seq<string>>): string
  {
    [Bom] + RenderRows(rows)
  }

  // ---------------------------------------------------------------- reading

  /** An unquoted field runs up to the next comma or CR (or the end). */
  function ParseBare(s: string): (r: (string, string))
    ensures r.0 + r.1 == s
  {
    if s == [] || s[0] == ',' || s[0] == '\r' then ("", s)
    else
      var t := ParseBare(s[1..]);
      ([s[0]] + t.0, t.1)
  }

  /** The body of a quoted field, after its opening quote; `""` stands for one quote. */
  function ParseQuoted(s: string): (r: Option<(string, string)>)
    ensures r.Some? ==> |r.value.1| < |s|
  {
    if s == [] then None
    else if s[0] == '"' then
      if |s| >= 2 && s[1] == '"' then
        var t := ParseQuoted(s[2..]);
        if t.None? then None else Some(("\"" + t.value.0, t.value.1))
      else Some(("", s[1..]))
    else
      var t := ParseQuoted(s[1..]);
      if t.None? then None else Some(([s[0]] + t.value.0, t.value.1))
  }

  function ParseField(s: string): (r: Option<(string, string)>)
    ensures r.Some? ==> |r.value.1| <= |s|
  {
    if s != [] && s[0] == '"' then ParseQuoted(s[1..])
    else
      var t := ParseBare(s);
      Some(t)
  }

  /** Comma-separated fields, up to the end of the record. */
  function ParseFields(s: string): (r: Option<(seq<string>, string)>)
    ensures r.Some? ==> |r.value.1| <= |s|
    decreases |s|
  {
    match ParseField(s)
    case None => None
    case Some((f, rest)) =>
      if rest != [] && rest[0] == ',' then
        match ParseFields(rest[1..])
        case None => None
        case Some((fs, tail)) => Some(([f] + fs, tail))
      else Some(([f], rest))
  }

  /** CRLF-terminated records up to the end of the text. */
  function ParseRows(s: string): Option<seq<seq<string>>>
    decreases |s|
  {
    if s == [] then Some([])
    else
      match ParseFields(s)
      case None => None
      case Some((fields, rest)) =>
        if |rest| >= 2 && rest[..2] == Crlf then
          match ParseRows(rest[2..])
          case None => None
          case Some(rows) => Some([fields] + rows)
        else None
  }

  /** A reader that skips the byte-order mark, as spreadsheet programs do. */
  function ReadDocument(doc: string): Option<seq<seq<string>>>
  {
    if doc != [] && doc[0] == Bom then ParseRows(doc[1..]) else ParseRows(doc)
  }

  // ---------------------------------------------------------------- round trip

  lemma {:induction false} BareRoundTrip(f: string, rest: string)
    requires !NeedsQuoting(f)
    requires rest == [] || rest[0] == ',' || rest[0] == '\r'
    ensures ParseBare(f + rest) == (f, rest)
  {
    if f != [] {
      assert !Special(f[0]);
      assert !NeedsQuoting(f[1..]) by {
        forall i | 0 <= i < |f[1..]| ensures !Special(f[1..][i]) {
          assert f[1..][i] == f[i + 1];
        }
      }
      BareRoundTrip(f[1..], rest);
      assert (f + rest)[1..] == f[1..] + rest;
      assert [f[0]] + f[1..] == f;
    } else {
      assert f + rest == rest;
    }
  }

  lemma {:induction false} QuotedRoundTrip(f: string, rest: string)
    requires rest == [] || rest[0] != '"'
    ensures ParseQuoted(Escape(f) + "\"" + rest) == Some((f, rest))
  {
    var s := Escape(f) + "\"" + rest;
    if f == [] {
      assert s == "\"" + rest;
      assert s[1..] == rest;
    } else if f[0] == '"' {
      QuotedRoundTrip(f[1..], rest);
      assert s == "\"\"" + (Escape(f[1..]) + "\"" + rest);
      assert s[2..] == Escape(f[1..]) + "\"" + rest;
      assert "\"" + f[1..] == f;
    } else {
      QuotedRoundTrip(f[1..], rest);
      assert s == [f[0]] + (Escape(f[1..]) + "\"" + rest);
      assert s[1..] == Escape(f[1..]) + "\"" + rest;
      assert [f[0]] + f[1..] == f;
    }
  }

  lemma FieldRoundTrip(f: string, rest: string)
    requires rest == [] || rest[0] == ',' || rest[0] == '\r'
    ensures ParseField(RenderField(f) + rest) == Some((f, rest))
  {
    if NeedsQuoting(f) {
      QuotedFieldRoundTrip(f, rest);
    } else {
      BareFieldRoundTrip(f, rest);
    }
  }

  lemma QuotedFieldRoundTrip(f: string, rest: string)
    requires NeedsQuoting(f)
    requires rest == [] || rest[0] == ',' || rest[0] == '\r'
    ensures ParseField(RenderField(f) + rest) == Some((f, rest))
  {
    var s := RenderField(f) + rest;
    assert s == "\"" + (Escape(f) + "\"" + rest);
    assert s[1..] == Escape(f) + "\"" + rest;
    QuotedRoundTrip(f, rest);
  }

  lemma BareFieldRoundTrip(f: string, rest: string)
    requires !NeedsQuoting(f)
    requires rest == [] || rest[0] == ',' || rest[0] == '\r'
    ensures ParseField(RenderField(f) + rest) == Some((f, rest))
  {
    if f != [] {
      assert !Special(f[0]);
      assert (f + rest)[0] == f[0];
    } else {
      assert f + rest == rest;
    }
    BareRoundTrip(f, rest);
  }

  lemma {:induction false} FieldsRoundTrip(fields: seq<string>, rest: string)
    requires |fields| >= 1
    requires rest == [] || rest[0] == '\r'
    ensures ParseFields(RenderFields(fields) + rest) == Some((fields, rest))
  {
    if |fields| == 1 {
      FieldRoundTrip(fields[0], rest);
      assert RenderFields(fields) == RenderField(fields[0]);
      assert [fields[0]] == fields;
    } else {
      FieldsRoundTrip(fields[1..], rest);
      FieldsStep(fields, rest);
    }
  }

  /** One field more in front: its parse stops at the comma and the rest parses as before. */
  lemma FieldsStep(fields: seq<string>, rest: string)
    requires |fields| >= 2
    requires ParseFields(RenderFields(fields[1..]) + rest) == Some((fields[1..], rest))
    ensures ParseFields(RenderFields(fields) + rest) == Some((fields, rest))
  {
    var head := RenderField(fields[0]);
    var tail := RenderFields(fields[1..]) + rest;
    assert RenderFields(fields) == head + "," + RenderFields(fields[1..]);
    Regroup(head, ",", RenderFields(fields[1..]), rest);
    FieldRoundTrip(fields[0], "," + tail);
    assert ("," + tail)[1..] == tail;
    assert [fields[0]] + fields[1..] == fields;
  }

  lemma Regroup(a: string, b: string, c: string, d: string)
    ensures a + b + c + d == a + (b + (c + d))
  {
  }

  lemma RowRoundTrip(fields: seq<string>, rest: string)
    requires |fields| >= 1
    ensures ParseFields(RenderRow(fields) + rest) == Some((fields, Crlf + rest))
  {
    if fields == [""] {
      QuotedRoundTrip("", Crlf + rest);
      assert RenderRow(fields) + rest == "\"" + (Escape("") + "\"" + (Crlf + rest));
    } else {
      FieldsRoundTrip(fields, Crlf + rest);
      assert RenderRow(fields) + rest == RenderFields(fields) + (Crlf + rest);
    }
  }

  /** Reading back what the writer wrote gives the rows, every row having at least one field. */
  lemma {:induction false} RowsRoundTrip(rows: seq<seq<string>>)
    requires forall k :: 0 <= k < |rows| ==> |rows[k]| >= 1
    ensures ParseRows(RenderRows(rows)) == Some(rows)
  {
    if rows != [] {
      var rest := RenderRows(rows[1..]);
      RowRoundTrip(rows[0], rest);
      RowsRoundTrip(rows[1..]);
      var s := RenderRows(rows);
      assert s == RenderRow(rows[0]) + rest;
      assert s != [];
      assert (Crlf + rest)[..2] == Crlf && (Crlf + rest)[2..] == rest;
      assert [rows[0]] + rows[1..] == rows;
    }
  }

  /** Writing one more row appends its text to the buffer. */
  lemma {:induction false} RenderRowsAppend(rows: seq<seq<string>>, row: seq<string>)
    ensures RenderRows(rows + [row]) == RenderRows(rows) + RenderRow(row)
  {
    if rows == [] {
      assert [] + [row] == [row];
      assert RenderRows([row]) == RenderRow(row) + RenderRows([]);
    } else {
      RenderRowsAppend(rows[1..], row);
      assert (rows + [row])[1..] == rows[1..] + [row];
    }
  }

  /** A header row followed by the rest of the table. */
  lemma HeadedRows(header: seq<string>, rows: seq<seq<string>>)
    ensures RenderRows([header] + rows) == RenderRow(header) + RenderRows(rows)
  {
    assert ([header] + rows)[1..] == rows;
  }

  /** The exported document reads back as exactly the rows written. */
  lemma DocumentRoundTrip(rows: seq<seq<string>>)
    requires forall k :: 0 <= k < |rows| ==> |rows[k]| >= 1
    ensures ReadDocument(Document(rows)) == Some(rows)
  {
    assert Document(rows)[1..] == RenderRows(rows);
    RowsRoundTrip(rows);
  }

  // ---------------------------------------------------------------- integers

  function DigitChar(d: nat): (c: char)
    requires d < 10
    ensures '0' <= c <= '9' && c as int - '0' as int == d
  {
    ('0' as int + d) as char
  }

  /** `str(n)` for the id column. */
  function NatToDecimal(n: nat): (s: string)
    ensures |s| >= 1
    ensures forall i :: 0 <= i < |s| ==> '0' <= s[i] <= '9'
  {
    if n < 10 then [DigitChar(n)] else NatToDecimal(n / 10) + [DigitChar(n % 10)]
  }

  /** The value of a string of decimal digits. */
  function DecimalValue(s: string): nat
    requires forall i :: 0 <= i < |s| ==> '0' <= s[i] <= '9'
  {
    if s == [] then 0
    else DecimalValue(s[..|s| - 1]) * 10 + (s[|s| - 1] as int - '0' as int)
  }

  /** The id written to the CSV reads back as the same number. */
  lemma {:induction false} DecimalRoundTrip(n: nat)
    ensures DecimalValue(NatToDecimal(n)) == n
  {
    if n >= 10 {
      DecimalRoundTrip(n / 10);
      var s := NatToDecimal(n);
      assert s[..|s| - 1] == NatToDecimal(n / 10);
    }
  }

  /** A written number is never quoted. */
  lemma DecimalNeedsNoQuoting(n: nat)
    ensures !NeedsQuoting(NatToDecimal(n))
  {
  }
}
