/** The activity export (lib/csv.ts toCsv), read back by section 2 of RFC 4180. */
module Csv {
  import opened Wrappers

  /** Quotes inside a field are doubled. */
  function Doubled(s: string): string {
    if s == [] then [] else (if s[0] == '"' then "\"\"" else [s[0]]) + Doubled(s[1..])
  }

  function Cell(value: string): string {
    "\"" + Doubled(value) + "\""
  }

  function Line(row: seq<string>): string {
    if row == [] then [] else if |row| == 1 then Cell(row[0]) else Cell(row[0]) + "," + Line(row[1..])
  }

  const CRLF := "\r\n"

  function Lines(rows: seq<seq<string>>): string {
    if rows == [] then [] else Line(rows[0]) + CRLF + Lines(rows[1..])
  }

  /** Header and rows, every field quoted, every line ended. */
  function ToCsv(headers: seq<string>, rows: seq<seq<string>>): string {
    Lines([headers] + rows)
  }

  /* --------------------------------------------- RFC 4180 section 2, reading */

  datatype Parsed<T> = Parsed(value: T, rest: string)

  /** Characters an unquoted field may hold. */
  predicate IsText(c: char) {
    c != ',' && c != '"' && c != '\r' && c != '\n'
  }

  function Unquoted(s: string): (p: Parsed<string>)
    ensures |p.value| + |p.rest| == |s|
  {
    if s != [] && IsText(s[0]) then
      var tail := Unquoted(s[1..]);
      Parsed([s[0]] + tail.value, tail.rest)
    else Parsed([], s)
  }

  /** The inside of a quoted field, up to and including its closing quote. */
  function Quoted(s: string): (p: Option<Parsed<string>>)
    ensures p.Some? ==> |p.value.rest| < |s|
  {
    if s == [] then None
    else if s[0] != '"' then
      var tail := Quoted(s[1..]);
      if tail.None? then None else Some(Parsed([s[0]] + tail.value.value, tail.value.rest))
    else if |s| > 1 && s[1] == '"' then
      var tail := Quoted(s[2..]);
      if tail.None? then None else Some(Parsed(['"'] + tail.value.value, tail.value.rest))
    else Some(Parsed([], s[1..]))
  }

  function Field(s: string): (p: Option<Parsed<string>>)
    ensures p.Some? ==> |p.value.rest| <= |s|
  {
    if s != [] && s[0] == '"' then Quoted(s[1..]) else Some(Unquoted(s))
  }

  /** Fields separated by commas. */
  function Record(s: string): (p: Option<Parsed<seq<string>>>)
    ensures p.Some? ==> |p.value.rest| <= |s|
    decreases |s|
  {
    var field := Field(s);
    if field.None? then None
    else if field.value.rest != [] && field.value.rest[0] == ',' then
      var tail := Record(field.value.rest[1..]);
      if tail.None? then None else Some(Parsed([field.value.value] + tail.value.value, tail.value.rest))
    else Some(Parsed([field.value.value], field.value.rest))
  }

  /** Records separated by line breaks; the last one may or may not have its own. */
  function File(s: string): Option<seq<seq<string>>>
    decreases |s|
  {
    var record := Record(s);
    if record.None? then None
    else if record.value.rest == [] then Some([record.value.value])
    else if |record.value.rest| < 2 || record.value.rest[..2] != CRLF then None
    else if |record.value.rest| == 2 then Some([record.value.value])
    else
      var tail := File(record.value.rest[2..]);
      if tail.None? then None else Some([record.value.value] + tail.value)
  }

  /* ------------------------------------------------------------- round trip */

  lemma {:induction false} QuotedUndoesCell(value: string, rest: string)
    requires rest != [] ==> rest[0] != '"'
    ensures Quoted(Doubled(value) + "\"" + rest) == Some(Parsed(value, rest))
  {
    var s := Doubled(value) + "\"" + rest;
    if value == [] {
      assert s == "\"" + rest && s[1..] == rest;
    } else {
      QuotedUndoesCell(value[1..], rest);
      var tail := Doubled(value[1..]) + "\"" + rest;
      if value[0] == '"' {
        assert s == "\"\"" + tail;
        assert s[2..] == tail;
      } else {
        assert s == [value[0]] + tail;
        assert s[1..] == tail;
      }
      assert value == [value[0]] + value[1..];
    }
  }

  lemma FieldUndoesCell(value: string, rest: string)
    requires rest != [] ==> rest[0] != '"'
    ensures Field(Cell(value) + rest) == Some(Parsed(value, rest))
  {
    QuotedUndoesCell(value, rest);
    assert (Cell(value) + rest)[1..] == Doubled(value) + "\"" + rest;
  }

  ghost predicate StartsWithBreak(rest: string) {
    |rest| >= 2 && rest[..2] == CRLF && rest[0] == '\r'
  }

  lemma {:induction false} RecordUndoesLine(row: seq<string>, rest: string)
    requires row != [] && StartsWithBreak(rest)
    ensures Record(Line(row) + rest) == Some(Parsed(row, rest))
  {
    hide Field, Cell;
    if |row| == 1 {
      FieldUndoesCell(row[0], rest);
      assert row == [row[0]];
    } else {
      var more := "," + Line(row[1..]) + rest;
      assert Line(row) + rest == Cell(row[0]) + more;
      FieldUndoesCell(row[0], more);
      assert more[1..] == Line(row[1..]) + rest;
      RecordUndoesLine(row[1..], rest);
      assert row == [row[0]] + row[1..];
    }
  }

  lemma EmptyLineIsOneField(rest: string)
    requires StartsWithBreak(rest)
    ensures Record(rest) == Some(Parsed([""], rest))
  {
    assert Unquoted(rest) == Parsed([], rest);
  }

  /** A row without fields is written as an empty line, which reads as one empty field. */
  function AsRead(rows: seq<seq<string>>): seq<seq<string>> {
    if rows == [] then [] else [if rows[0] == [] then [""] else rows[0]] + AsRead(rows[1..])
  }

  lemma {:induction false} FileUndoesLines(rows: seq<seq<string>>)
    requires rows != []
    ensures File(Lines(rows)) == Some(AsRead(rows))
  {
    hide Record, Line, StartsWithBreak;
    assert StartsWithBreak(CRLF + Lines(rows[1..])) by { BreakFirst(Lines(rows[1..])); }
    var rest := CRLF + Lines(rows[1..]);
    assert Lines(rows) == Line(rows[0]) + rest;
    assert rest[..2] == CRLF && rest[2..] == Lines(rows[1..]);
    if rows[0] == [] {
      NoFieldsNoText();
      assert Line(rows[0]) + rest == rest;
      EmptyLineIsOneField(rest);
    } else {
      RecordUndoesLine(rows[0], rest);
    }
    if |rows| == 1 {
      assert rows[1..] == [] && rest == CRLF;
      assert AsRead(rows) == [if rows[0] == [] then [""] else rows[0]];
    } else {
      LinesAreNotEmpty(rows[1..]);
      FileUndoesLines(rows[1..]);
    }
  }

  lemma BreakFirst(s: string)
    ensures StartsWithBreak(CRLF + s)
  {
  }

  lemma NoFieldsNoText()
    ensures Line([]) == []
  {
  }

  lemma LinesAreNotEmpty(rows: seq<seq<string>>)
    requires rows != []
    ensures |Lines(rows)| > 0
  {
  }

  /**
   * Whatever the fields contain, commas, quotes and line breaks included, a reader of
   * the standard gets the same header and rows back, exactly when none of them is
   * without fields.
   */
  lemma ExportReadsBack(headers: seq<string>, rows: seq<seq<string>>)
    ensures File(ToCsv(headers, rows)) == Some([headers] + rows)
       <==> headers != [] && forall row :: row in rows ==> row != []
  {
    FileUndoesLines([headers] + rows);
    AsReadIsSame([headers] + rows);
    assert forall row :: row in [headers] + rows <==> row == headers || row in rows;
  }

  lemma {:induction false} AsReadIsSame(rows: seq<seq<string>>)
    ensures AsRead(rows) == rows <==> forall row :: row in rows ==> row != []
  {
    if rows != [] {
      AsReadIsSame(rows[1..]);
      assert rows == [rows[0]] + rows[1..];
      assert AsRead(rows)[1..] == AsRead(rows[1..]);
      if rows[0] == [] {
        assert AsRead(rows)[0] == [""] && rows[0] in rows;
      } else {
        forall row | row in rows ensures row == rows[0] || row in rows[1..] { }
        forall row | row in rows[1..] ensures row in rows { }
      }
    }
  }
}
