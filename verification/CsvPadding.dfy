/** Cells with white space around them: what CsvImportModal.tsx makes of hand-written CSV. */
module CsvPadding {
  import opened JsText
  import opened Csv

  predicate AllSpace(s: string) {
    forall i :: 0 <= i < |s| ==> IsSpace(s[i])
  }

  // ----- what trimming keeps --------------------------------------------------------------------------

  /** From the first character that is no space to the last. */
  ghost predicate Core(s: string, i: nat, j: nat) {
    i < j <= |s| && !IsSpace(s[i]) && !IsSpace(s[j - 1]) && AllSpace(s[..i]) && AllSpace(s[j..])
  }

  lemma {:induction false} TrimLeftSpaces(pad: string, s: string)
    requires AllSpace(pad)
    ensures TrimLeft(pad + s) == TrimLeft(s)
  {
    if pad == "" {
      assert pad + s == s;
    } else {
      assert (pad + s)[0] == pad[0] && (pad + s)[1..] == pad[1..] + s;
      TrimLeftSpaces(pad[1..], s);
    }
  }

  lemma {:induction false} TrimRightSpaces(s: string, pad: string)
    requires AllSpace(pad)
    ensures TrimRight(s + pad) == TrimRight(s)
    decreases |pad|
  {
    if pad == "" {
      assert s + pad == s;
    } else {
      var n := |pad| - 1;
      assert (s + pad)[..|s + pad| - 1] == s + pad[..n] && (s + pad)[|s + pad| - 1] == pad[n];
      TrimRightSpaces(s, pad[..n]);
    }
  }

  /** Trimming keeps the core, and nothing of a text without one. */
  lemma TrimKeepsCore(s: string, i: nat, j: nat)
    ensures AllSpace(s) ==> Trim(s) == ""
    ensures Core(s, i, j) ==> Trim(s) == s[i..j]
  {
    if AllSpace(s) {
      TrimLeftSpaces(s, "");
      assert s + "" == s;
    }
    if Core(s, i, j) {
      assert s == s[..i] + s[i..] && s[i..] == s[i..j] + s[j..];
      TrimLeftSpaces(s[..i], s[i..]);
      assert TrimLeft(s[i..]) == s[i..];
      TrimRightSpaces(s[i..j], s[j..]);
      assert s[i..j][|s[i..j]| - 1] == s[j - 1];
    }
  }

  lemma {:induction false} FindCore(s: string) returns (i: nat, j: nat)
    ensures AllSpace(s) || Core(s, i, j)
    decreases |s|
  {
    i, j := 0, |s|;
    if s != "" {
      if IsSpace(s[0]) {
        i, j := FindCore(s[1..]);
        i, j := i + 1, j + 1;
        if !AllSpace(s[1..]) {
          assert s[..i] == [s[0]] + s[1..][..i - 1] && s[j..] == s[1..][j - 1..];
        } else {
          assert s == [s[0]] + s[1..];
        }
      } else if IsSpace(s[|s| - 1]) {
        var n := |s| - 1;
        i, j := FindCore(s[..n]);
        assert |s| > 1 && s[..n][0] == s[0];
        if !AllSpace(s[..n]) {
          assert s[..i] == s[..n][..i] && s[j..] == s[..n][j..] + [s[n]];
        }
      }
    }
  }

  /** White space around a text is trimmed away with its own. */
  lemma TrimPadded(before: string, c: string, after: string)
    requires AllSpace(before) && AllSpace(after)
    ensures Trim(before + (c + after)) == Trim(c)
  {
    TrimLeftSpaces(before, c + after);
    TrimLeftThenRight(c, after);
  }

  lemma TrimLeftThenRight(c: string, after: string)
    requires AllSpace(after)
    ensures TrimRight(TrimLeft(c + after)) == TrimRight(TrimLeft(c))
  {
    hide TrimLeft, TrimRight, AllSpace, Core;
    var i, j := FindCore(c);
    if AllSpace(c) {
      TrimLeftSpaces(c, after);
      SpacesTrimmed(after);
      SpacesTrimmed(c);
    } else {
      CoreStarts(c, i, j);
      TrimFromCore(c, i, after);
    }
  }

  lemma SpacesTrimmed(s: string)
    requires AllSpace(s)
    ensures TrimLeft(s) == ""
  {
    TrimLeftSpaces(s, "");
    assert s + "" == s;
  }

  lemma TrimFromCore(c: string, i: nat, after: string)
    requires i < |c| && !IsSpace(c[i]) && AllSpace(c[..i]) && AllSpace(after)
    ensures TrimRight(TrimLeft(c + after)) == TrimRight(TrimLeft(c))
  {
    hide TrimLeft, TrimRight, AllSpace;
    assert c == c[..i] + c[i..] && c + after == c[..i] + (c[i..] + after);
    TrimLeftSpaces(c[..i], c[i..] + after);
    TrimLeftSpaces(c[..i], c[i..]);
    StartsTrimmed(c[i..]);
    assert (c[i..] + after)[0] == c[i];
    StartsTrimmed(c[i..] + after);
    TrimRightSpaces(c[i..], after);
  }

  lemma CoreStarts(c: string, i: nat, j: nat)
    requires Core(c, i, j)
    ensures i < |c| && !IsSpace(c[i]) && AllSpace(c[..i])
  {
  }

  lemma StartsTrimmed(s: string)
    requires s != "" && !IsSpace(s[0])
    ensures TrimLeft(s) == s
  {
  }

  // ----- padded rows --------------------------------------------------------------------------------------

  /** A cell as printed, with white space before and after it. */
  datatype Padded = Padded(before: string, cell: string, after: string)

  predicate PadsOk(row: seq<Padded>) {
    forall i :: 0 <= i < |row| ==> AllSpace(row[i].before) && AllSpace(row[i].after)
  }

  function PadText(style: Style, p: Padded): string {
    p.before + (Cell(style, p.cell) + p.after)
  }

  function PaddedRow(style: Style, row: seq<Padded>): string {
    if row == [] then ""
    else if |row| == 1 then PadText(style, row[0])
    else PadText(style, row[0]) + ("," + PaddedRow(style, row[1..]))
  }

  /** Each cell without its outer white space. */
  function TrimmedCells(row: seq<Padded>): (r: seq<string>)
    ensures |r| == |row| && forall i :: 0 <= i < |row| ==> r[i] == Trim(row[i].cell)
  {
    seq(|row|, i requires 0 <= i < |row| => Trim(row[i].cell))
  }

  lemma {:induction false} SpaceScans(pad: string, rest: string, cur: string, inQuotes: bool)
    requires AllSpace(pad)
    ensures Fields(pad + rest, cur, inQuotes) == Fields(rest, cur + pad, inQuotes)
    decreases |pad|
  {
    if pad == "" {
      assert pad + rest == rest && cur + pad == cur;
    } else {
      assert (pad + rest)[0] == pad[0] && (pad + rest)[1..] == pad[1..] + rest;
      assert (cur + [pad[0]]) + pad[1..] == cur + pad;
      SpaceScans(pad[1..], rest, cur + [pad[0]], inQuotes);
    }
  }

  lemma CellScansFrom(style: Style, c: string, rest: string, cur: string)
    requires CellEnd(rest)
    ensures Fields(Cell(style, c) + rest, cur, false) == Fields(rest, cur + c, false)
  {
    if style.Always? || Special(c) {
      var inside := Doubled(c) + ("\"" + rest);
      var s := "\"" + inside;
      assert Cell(style, c) + rest == s;
      assert s[0] == '"' && s[1..] == inside;
      QuotedInside(c, rest, cur);
    } else {
      BareInside(c, rest, cur);
    }
  }

  lemma PadScans(style: Style, p: Padded, rest: string)
    requires AllSpace(p.before) && AllSpace(p.after) && CellEnd(rest)
    ensures Fields(PadText(style, p) + rest, "", false) == Fields(rest, p.before + (p.cell + p.after), false)
  {
    hide Fields, Cell;
    var cell := Cell(style, p.cell);
    assert PadText(style, p) + rest == p.before + (cell + (p.after + rest));
    SpaceScans(p.before, cell + (p.after + rest), "", false);
    assert "" + p.before == p.before;
    assert CellEnd(p.after + rest) by {
      assert p.after + rest == "" || (p.after + rest)[0] == (if p.after == "" then rest[0] else p.after[0]);
    }
    CellScansFrom(style, p.cell, p.after + rest, p.before);
    SpaceScans(p.after, rest, p.before + p.cell, false);
    assert (p.before + p.cell) + p.after == p.before + (p.cell + p.after);
  }

  /** For all cells in either style, and white space around each, the line parses to the cells without
      their outer white space. */
  lemma {:induction false} PaddedRowParses(style: Style, row: seq<Padded>)
    requires |row| > 0 && PadsOk(row)
    ensures Fields(PaddedRow(style, row), "", false) == TrimmedCells(row)
    decreases |row|
  {
    hide Fields, PadText, Trim;
    if |row| == 1 {
      LastCell(style, row[0]);
      assert TrimmedCells(row) == [Trim(row[0].cell)];
    } else {
      var rest := PaddedRow(style, row[1..]);
      assert PaddedRow(style, row) == PadText(style, row[0]) + ("," + rest);
      OneCellMore(style, row[0], rest);
      PaddedRowParses(style, row[1..]);
      assert TrimmedCells(row) == [Trim(row[0].cell)] + TrimmedCells(row[1..]);
    }
  }

  lemma LastCell(style: Style, p: Padded)
    requires AllSpace(p.before) && AllSpace(p.after)
    ensures Fields(PadText(style, p), "", false) == [Trim(p.cell)]
  {
    hide PadText, Trim;
    TrimPadded(p.before, p.cell, p.after);
    PadScans(style, p, "");
    assert PadText(style, p) + "" == PadText(style, p);
  }

  lemma OneCellMore(style: Style, p: Padded, rest: string)
    requires AllSpace(p.before) && AllSpace(p.after)
    ensures Fields(PadText(style, p) + ("," + rest), "", false) == [Trim(p.cell)] + Fields(rest, "", false)
  {
    hide PadText, Trim;
    TrimPadded(p.before, p.cell, p.after);
    PadScans(style, p, "," + rest);
    CommaEnds(rest, p.before + (p.cell + p.after));
  }

  lemma CommaEnds(rest: string, cur: string)
    ensures Fields("," + rest, cur, false) == [Trim(cur)] + Fields(rest, "", false)
  {
    hide Trim;
    assert ("," + rest)[0] == ',' && ("," + rest)[1..] == rest;
  }

  /** So tight cells come back as they are. */
  lemma TightCellsSurvivePadding(style: Style, row: seq<Padded>)
    requires |row| > 0 && PadsOk(row) && forall i :: 0 <= i < |row| ==> Tight(row[i].cell)
    ensures var cells := Fields(PaddedRow(style, row), "", false);
      |cells| == |row| && forall i :: 0 <= i < |row| ==> cells[i] == row[i].cell
  {
    hide Fields, PaddedRow, Trim, Tight;
    PaddedRowParses(style, row);
    forall i | 0 <= i < |row| ensures Trim(row[i].cell) == row[i].cell {
      TrimFixed(row[i].cell);
    }
  }

  /** And a bare cell keeps what stands from its first to its last character that is no space. */
  lemma BareCellKeepsCore(c: string, i: nat, j: nat)
    requires !Special(c)
    ensures AllSpace(c) ==> Fields(c, "", false) == [""]
    ensures Core(c, i, j) ==> Fields(c, "", false) == [c[i..j]]
  {
    BareInside(c, "", "");
    assert c + "" == c && "" + c == c;
    TrimKeepsCore(c, i, j);
  }
}
