/** CSV out of the result views and back in through the import dialog: the two printers
    (QueryPage.tsx and chat.component.ts) against the one parser (CsvImportModal.tsx). */
module Csv {
  import opened JsText

  // ----- printers --------------------------------------------------------------------------

  /** replace(/"/g, '""') */
  function Doubled(s: string): string {
    if s == "" then "" else (if s[0] == '"' then "\"\"" else [s[0]]) + Doubled(s[1..])
  }

  /** Always quotes every cell; WhenNeeded only those with a comma, a quote or a line feed. */
  datatype Style = Always | WhenNeeded

  predicate IsSpecial(ch: char) {
    ch == ',' || ch == '"' || ch == '\n'
  }

  predicate Special(s: string) {
    exists i :: 0 <= i < |s| && IsSpecial(s[i])
  }

  function Cell(style: Style, s: string): string {
    if style.Always? || Special(s) then "\"" + (Doubled(s) + "\"") else s
  }

  function Join(parts: seq<string>, sep: string): string {
    if parts == [] then "" else if |parts| == 1 then parts[0] else parts[0] + (sep + Join(parts[1..], sep))
  }

  function Cells(style: Style, row: seq<string>): (r: seq<string>)
    ensures |r| == |row| && forall i :: 0 <= i < |row| ==> r[i] == Cell(style, row[i])
  {
    seq(|row|, i requires 0 <= i < |row| => Cell(style, row[i]))
  }

  function PrintRow(style: Style, row: seq<string>): string {
    Join(Cells(style, row), ",")
  }

  function PrintRows(style: Style, rows: seq<seq<string>>): (r: seq<string>)
    ensures |r| == |rows| && forall i :: 0 <= i < |rows| ==> r[i] == PrintRow(style, rows[i])
  {
    seq(|rows|, i requires 0 <= i < |rows| => PrintRow(style, rows[i]))
  }

  function Export(style: Style, header: seq<string>, rows: seq<seq<string>>): string {
    PrintRow(style, header) + ("\n" + Join(PrintRows(style, rows), "\n"))
  }

  // ----- parser ------------------------------------------------------------------------------

  /** The cells of the rest of a line, from the loop variables cur and inQuotes. */
  function Fields(s: string, cur: string, inQuotes: bool): (r: seq<string>)
    ensures |r| > 0
    decreases |s|
  {
    if s == "" then [Trim(cur)]
    else if s[0] == '"' then
      if inQuotes && |s| > 1 && s[1] == '"' then Fields(s[2..], cur + "\"", inQuotes)
      else Fields(s[1..], cur, !inQuotes)
    else if s[0] == ',' && !inQuotes then [Trim(cur)] + Fields(s[1..], "", inQuotes)
    else Fields(s[1..], cur + [s[0]], inQuotes)
  }

  function FieldsOf(lines: seq<string>): (r: seq<seq<string>>)
    ensures |r| == |lines| && forall i :: 0 <= i < |lines| ==> r[i] == Fields(lines[i], "", false)
  {
    seq(|lines|, i requires 0 <= i < |lines| => Fields(lines[i], "", false))
  }

  function Parse(text: string): seq<seq<string>> {
    FieldsOf(Lines(Trim(text)))
  }

  /** The character loop of parseCsv on one line. */
  method ParseLine(line: string) returns (result: seq<string>)
    ensures result == Fields(line, "", false)
  {
    result := [];
    var cur, inQuotes := "", false;
    var i := 0;
    assert line[0..] == line;
    while i < |line|
      invariant 0 <= i <= |line|
      invariant Fields(line, "", false) == result + Fields(line[i..], cur, inQuotes)
    {
      var ch := line[i];
      assert line[i..][1..] == line[i + 1..];
      if ch == '"' {
        if inQuotes && i + 1 < |line| && line[i + 1] == '"' {
          assert line[i..][2..] == line[i + 2..];
          cur := cur + "\"";
          i := i + 1;
        } else {
          inQuotes := !inQuotes;
        }
      } else if ch == ',' && !inQuotes {
        result := result + [Trim(cur)];
        cur := "";
      } else {
        cur := cur + [ch];
      }
      i := i + 1;
    }
    result := result + [Trim(cur)];
  }

  method ParseCsv(text: string) returns (result: seq<seq<string>>)
    ensures result == Parse(text)
  {
    var lines := Lines(Trim(text));
    result := [];
    for n := 0 to |lines|
      invariant |result| == n && forall i :: 0 <= i < n ==> result[i] == Fields(lines[i], "", false)
    {
      var row := ParseLine(lines[n]);
      result := result + [row];
    }
  }

  // ----- one cell ------------------------------------------------------------------------------

  /** A closing quote before this text is not read as a doubled one. */
  predicate CellEnd(rest: string) {
    rest == "" || rest[0] != '"'
  }

  lemma {:induction false} QuotedInside(c: string, rest: string, cur: string)
    requires CellEnd(rest)
    ensures Fields(Doubled(c) + ("\"" + rest), cur, true) == Fields(rest, cur + c, false)
    decreases |c|
  {
    if c == "" {
      assert Doubled(c) + ("\"" + rest) == "\"" + rest && ("\"" + rest)[1..] == rest;
      assert cur + c == cur;
    } else {
      var more := Doubled(c[1..]) + ("\"" + rest);
      assert (cur + [c[0]]) + c[1..] == cur + c;
      QuotedInside(c[1..], rest, cur + [c[0]]);
      DoubledFirst(c, rest);
      InsideStep(c[0], more, cur);
    }
  }

  lemma DoubledFirst(c: string, rest: string)
    requires c != ""
    ensures Doubled(c) + ("\"" + rest) ==
      (if c[0] == '"' then "\"\"" else [c[0]]) + (Doubled(c[1..]) + ("\"" + rest))
  {
  }

  lemma InsideStep(ch: char, more: string, cur: string)
    ensures Fields((if ch == '"' then "\"\"" else [ch]) + more, cur, true) == Fields(more, cur + [ch], true)
  {
    if ch == '"' {
      var s := "\"\"" + more;
      assert s[0] == s[1] == '"' && s[2..] == more;
    } else {
      var s := [ch] + more;
      assert s[1..] == more;
    }
  }

  lemma {:induction false} BareInside(c: string, rest: string, cur: string)
    requires !Special(c)
    ensures Fields(c + rest, cur, false) == Fields(rest, cur + c, false)
    decreases |c|
  {
    if c == "" {
      assert c + rest == rest && cur + c == cur;
    } else {
      assert !IsSpecial(c[0]);
      assert forall i :: 0 <= i < |c[1..]| ==> c[1..][i] == c[i + 1];
      assert (c + rest)[1..] == c[1..] + rest && (cur + [c[0]]) + c[1..] == cur + c;
      BareInside(c[1..], rest, cur + [c[0]]);
    }
  }

  lemma CellScans(style: Style, c: string, rest: string)
    requires CellEnd(rest)
    ensures Fields(Cell(style, c) + rest, "", false) == Fields(rest, c, false)
  {
    assert "" + c == c;
    if style.Always? || Special(c) {
      QuotedScans(c, rest);
    } else {
      BareInside(c, rest, "");
    }
  }

  lemma QuotedScans(c: string, rest: string)
    requires CellEnd(rest)
    ensures Fields(("\"" + (Doubled(c) + "\"")) + rest, "", false) == Fields(rest, "" + c, false)
  {
    var inside := Doubled(c) + ("\"" + rest);
    var s := "\"" + inside;
    assert ("\"" + (Doubled(c) + "\"")) + rest == s;
    assert s[0] == '"' && s[1..] == inside;
    QuotedInside(c, rest, "");
  }

  // ----- one row ---------------------------------------------------------------------------------

  predicate CellOk(c: string) {
    Tight(c) && NoLf(c)
  }

  /** A row that survives: at least one cell, none with outer white space or a line feed. */
  predicate RowOk(row: seq<string>) {
    |row| > 0 && forall i :: 0 <= i < |row| ==> CellOk(row[i])
  }

  lemma RowText(style: Style, row: seq<string>)
    requires |row| > 1
    ensures PrintRow(style, row) == Cell(style, row[0]) + ("," + PrintRow(style, row[1..]))
  {
    assert Cells(style, row)[1..] == Cells(style, row[1..]);
  }

  lemma {:induction false} RowParses(style: Style, row: seq<string>)
    requires RowOk(row)
    ensures Fields(PrintRow(style, row), "", false) == row
  {
    var c := row[0];
    TrimFixed(c);
    if |row| == 1 {
      CellScans(style, c, "");
      assert Cell(style, c) + "" == Cell(style, c);
      assert row == [c];
    } else {
      var rest := "," + PrintRow(style, row[1..]);
      RowText(style, row);
      CellScans(style, c, rest);
      assert rest[1..] == PrintRow(style, row[1..]);
      RowParses(style, row[1..]);
      assert row == [c] + row[1..];
    }
  }

  lemma {:induction false} DoubledNoLf(c: string)
    requires NoLf(c)
    ensures NoLf(Doubled(c))
  {
    if c != "" {
      DoubledNoLf(c[1..]);
    }
  }

  lemma CellText(style: Style, c: string)
    requires CellOk(c)
    ensures NoLf(Cell(style, c)) && Tight(Cell(style, c))
    ensures Cell(style, c) == "" <==> style.WhenNeeded? && c == ""
  {
    DoubledNoLf(c);
  }

  /** A printed row is one tight line, empty only for the single bare empty cell. */
  lemma {:induction false} RowLine(style: Style, row: seq<string>)
    requires RowOk(row)
    ensures NoLf(PrintRow(style, row)) && Tight(PrintRow(style, row))
    ensures PrintRow(style, row) == "" <==> style.WhenNeeded? && row == [""]
  {
    CellText(style, row[0]);
    if |row| > 1 {
      RowText(style, row);
      RowLine(style, row[1..]);
      TightJoin(Cell(style, row[0]), PrintRow(style, row[1..]));
    } else {
      assert row == [row[0]];
    }
  }

  lemma TightJoin(a: string, b: string)
    requires Tight(a) && Tight(b) && NoLf(a) && NoLf(b)
    ensures Tight(a + ("," + b)) && NoLf(a + ("," + b))
  {
    var s := a + ("," + b);
    assert s[0] == if a == "" then ',' else a[0];
    assert s[|s| - 1] == if b == "" then ',' else b[|b| - 1];
  }

  // ----- the whole table -------------------------------------------------------------------------

  predicate LineOk(line: string) {
    NoLf(line) && Tight(line)
  }

  lemma LineFirst(line: string, rest: string)
    requires LineOk(line)
    ensures Lines(line + ("\n" + rest)) == [line] + Lines(rest)
    ensures Lfs(line + ("\n" + rest)) == 1 + Lfs(rest)
  {
    hide Lines;
    LinesFirst(line, rest);
    NoLfs(line);
    LfsAppend(line, "\n" + rest);
    LfsAppend("\n", rest);
    assert Lfs("\n") == 1;
  }

  lemma LineOnly(line: string)
    requires LineOk(line)
    ensures Lines(line) == [line] && Lfs(line) == 0
  {
    LinesSingle(line);
    NoLfs(line);
  }

  lemma {:induction false} JoinLines(lines: seq<string>)
    requires |lines| > 0 && forall i :: 0 <= i < |lines| ==> LineOk(lines[i])
    ensures Lines(Join(lines, "\n")) == lines
    ensures Lfs(Join(lines, "\n")) == |lines| - 1
  {
    hide Lines, Lfs, LineOk;
    if |lines| == 1 {
      LineOnly(lines[0]);
      assert lines == [lines[0]];
    } else {
      JoinLines(lines[1..]);
      LineFirst(lines[0], Join(lines[1..], "\n"));
      assert lines == [lines[0]] + lines[1..];
    }
  }

  lemma {:induction false} JoinEnds(lines: seq<string>)
    requires |lines| > 1
    ensures var s := Join(lines, "\n"); var last := lines[|lines| - 1];
      |s| > 0 && s[0] == (if lines[0] == "" then '\n' else lines[0][0]) &&
      s[|s| - 1] == (if last == "" then '\n' else last[|last| - 1])
  {
    if |lines| > 2 {
      JoinEnds(lines[1..]);
    } else {
      assert Join(lines[1..], "\n") == lines[1];
    }
  }

  lemma ExportIsJoin(style: Style, header: seq<string>, rows: seq<seq<string>>)
    requires rows != []
    ensures Export(style, header, rows) == Join(PrintRows(style, [header] + rows), "\n")
  {
    hide Join, PrintRow;
    var table := [header] + rows;
    var lines := PrintRows(style, table);
    var rest := PrintRows(style, rows);
    assert forall i :: 0 <= i < |rest| ==> lines[1..][i] == lines[i + 1] && table[i + 1] == rows[i];
    assert lines[1..] == rest;
    JoinFirst(lines, "\n");
  }

  lemma JoinFirst(lines: seq<string>, sep: string)
    requires |lines| > 1
    ensures Join(lines, sep) == lines[0] + (sep + Join(lines[1..], sep))
  {
  }

  ghost predicate TableOk(table: seq<seq<string>>) {
    forall i :: 0 <= i < |table| ==> RowOk(table[i])
  }

  /** What the import gives back unchanged. The bare printer loses an empty line at either end of
      the text, unless the text is nothing but that line. */
  ghost predicate Faithful(style: Style, header: seq<string>, rows: seq<seq<string>>) {
    var table := [header] + rows;
    TableOk(table) &&
    (style.Always? || table == [[""]] || (header != [""] && table[|table| - 1] != [""]))
  }

  lemma ParsedLines(style: Style, table: seq<seq<string>>)
    requires TableOk(table)
    ensures FieldsOf(PrintRows(style, table)) == table
  {
    forall i | 0 <= i < |table| ensures FieldsOf(PrintRows(style, table))[i] == table[i] {
      RowParses(style, table[i]);
    }
  }

  lemma TableLines(style: Style, table: seq<seq<string>>)
    requires TableOk(table)
    ensures forall i :: 0 <= i < |table| ==> LineOk(PrintRows(style, table)[i])
  {
    forall i | 0 <= i < |table| ensures LineOk(PrintRows(style, table)[i]) {
      RowLine(style, table[i]);
    }
  }

  lemma FaithfulParses(style: Style, header: seq<string>, rows: seq<seq<string>>)
    requires Faithful(style, header, rows)
    ensures Parse(Export(style, header, rows)) == [header] + rows
  {
    var table := [header] + rows;
    var lines := PrintRows(style, table);
    var text := Export(style, header, rows);
    assert RowOk(table[0]) && RowOk(table[|table| - 1]);
    RowLine(style, header);
    TableLines(style, table);
    ParsedLines(style, table);
    if rows == [] {
      assert table == [header] && text == lines[0] + "\n";
      HeaderOnly(lines[0]);
      assert lines == [lines[0]];
    } else {
      RowLine(style, table[|table| - 1]);
      ExportIsJoin(style, header, rows);
      JoinEnds(lines);
      JoinLines(lines);
      TrimFixed(text);
    }
  }

  lemma HeaderOnly(line: string)
    requires LineOk(line)
    ensures Lines(Trim(line + "\n")) == [line]
  {
    LinesSingle(line);
    if line == "" {
      assert line + "\n" == "\n" && TrimLeft("\n") == "";
    } else {
      TrimTail(line, "\n");
    }
  }

  // ----- and nothing else survives --------------------------------------------------------------

  lemma SliceNoLf(s: string, i: nat, j: nat)
    requires NoLf(s) && i <= j <= |s|
    ensures NoLf(s[i..j])
  {
  }

  lemma TrimOk(s: string)
    requires NoLf(s)
    ensures CellOk(Trim(s))
  {
    var i, j := TrimSlice(s);
    SliceNoLf(s, i, j);
  }

  lemma {:induction false} FieldsOk(s: string, cur: string, inQuotes: bool)
    requires NoLf(s) && NoLf(cur)
    ensures RowOk(Fields(s, cur, inQuotes))
    decreases |s|
  {
    TrimOk(cur);
    if s == "" {
    } else if s[0] == '"' {
      if inQuotes && |s| > 1 && s[1] == '"' {
        FieldsOk(s[2..], cur + "\"", inQuotes);
      } else {
        FieldsOk(s[1..], cur, !inQuotes);
      }
    } else if s[0] == ',' && !inQuotes {
      FieldsOk(s[1..], "", inQuotes);
    } else {
      FieldsOk(s[1..], cur + [s[0]], inQuotes);
    }
  }

  /** Whatever the text, the parser gives rows of at least one cell, trimmed, without line feeds. */
  lemma ParseOk(text: string)
    ensures TableOk(Parse(text))
  {
    var lines := Lines(Trim(text));
    LinesNoLf(Trim(text));
    forall i | 0 <= i < |lines| ensures RowOk(Parse(text)[i]) {
      FieldsOk(lines[i], "", false);
    }
  }

  lemma TrimLosesLf(text: string)
    requires text != "" && (text[0] == '\n' || text[|text| - 1] == '\n')
    ensures Lfs(Trim(text)) < Lfs(text)
  {
    var i, j := TrimSlice(text);
    SliceLfs(text, i, j);
    SomeLf(text, if text[0] == '\n' then 0 else |text| - 1);
    if i == |text| {
      assert Trim(text) == "";
    }
  }

  lemma ParsesFaithful(style: Style, header: seq<string>, rows: seq<seq<string>>)
    requires Parse(Export(style, header, rows)) == [header] + rows
    ensures Faithful(style, header, rows)
  {
    var table := [header] + rows;
    var lines := PrintRows(style, table);
    var text := Export(style, header, rows);
    ParseOk(text);
    if style.WhenNeeded? && rows != [] && (header == [""] || table[|table| - 1] == [""]) {
      TableLines(style, table);
      ExportIsJoin(style, header, rows);
      JoinLines(lines);
      JoinEnds(lines);
      BareEmpty(header);
      BareEmpty(table[|table| - 1]);
      LinesCount(Trim(text));
      assert |table| == 1 + Lfs(Trim(text));
      TrimLosesLf(text);
    }
  }

  lemma BareEmpty(row: seq<string>)
    ensures row == [""] ==> PrintRow(WhenNeeded, row) == ""
  {
  }

  /** The import returns exactly the exported header and rows, for precisely these tables. Rows
      need not be of one length. */
  lemma RoundTrip(style: Style, header: seq<string>, rows: seq<seq<string>>)
    ensures Parse(Export(style, header, rows)) == [header] + rows <==> Faithful(style, header, rows)
  {
    if Faithful(style, header, rows) {
      FaithfulParses(style, header, rows);
    } else if Parse(Export(style, header, rows)) == [header] + rows {
      ParsesFaithful(style, header, rows);
    }
  }

  /** With two columns or more both printers round-trip the same tables. */
  lemma TwoColumns(header: seq<string>, rows: seq<seq<string>>)
    requires forall i :: 0 <= i < |rows| ==> |rows[i]| > 1
    requires |header| > 1
    ensures Parse(Export(WhenNeeded, header, rows)) == [header] + rows <==>
      Parse(Export(Always, header, rows)) == [header] + rows
  {
    RoundTrip(WhenNeeded, header, rows);
    RoundTrip(Always, header, rows);
    var table := [header] + rows;
    assert |table[|table| - 1]| > 1;
  }
}
