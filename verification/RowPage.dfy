/** execute_query of the PostgreSQL and SQL Server connectors around the row cap: the page made of the
    rows that the rewritten statement returns. */
module RowPage {
  import opened Options
  import opened PyText
  import opened RowCap
  import Decimal

  type Row = seq<string>

  datatype Page = Page(rows: seq<Row>, rowCount: nat, truncated: bool)

  /** After the fetch: the PostgreSQL connector answers no rows with a page of its own. */
  function PostgresPage(fetched: seq<Row>, maxRows: nat): Page {
    var kept := if |fetched| > maxRows then fetched[..maxRows] else fetched;
    if kept == [] then Page([], 0, false) else Page(kept, |kept|, |fetched| > maxRows)
  }

  function SqlServerPage(fetched: seq<Row>, maxRows: nat): Page {
    var kept := if |fetched| > maxRows then fetched[..maxRows] else fetched;
    Page(kept, |kept|, |fetched| > maxRows)
  }

  /** At most n of the rows, the first ones. */
  function FirstRows(rows: seq<Row>, n: nat): seq<Row> {
    if |rows| <= n then rows else rows[..n]
  }

  /** What a database answers of the rows a statement selects: it honours the first number after the
      keyword. */
  function Answer(selected: seq<Row>, sql: string, kw: string): seq<Row> {
    var n := FirstNumber(sql, kw);
    if n.None? then selected else FirstRows(selected, n.value)
  }

  /** A limit of min(m, n) gives what the limit m gives, cut at n. */
  lemma CapOfCap(rows: seq<Row>, m: nat, n: nat)
    ensures FirstRows(FirstRows(rows, m), n) == FirstRows(rows, AtMost(Some(m), n))
  {
  }

  // ----- stripping leaves the number as it is --------------------------------------------------------

  predicate NoWords(s: string) {
    forall k :: 0 <= k < |s| ==> !WordChar(s[k])
  }

  lemma TrailerMatch(s: string, tail: string, kw: string, j: nat)
    requires Keyword(kw) && NoWords(tail)
    ensures MatchAt(s + tail, kw, j) == MatchAt(s, kw, j)
  {
    hide MatchAt;
    if MatchAt(s + tail, kw, j).Some? {
      var m := MatchAt(s + tail, kw, j).value;
      MatchShape(s + tail, kw, j);
      MatchChars(s + tail, kw, j, m.to - 1);
      MatchAgrees(s + tail, s, kw, j, |s|);
    } else if MatchAt(s, kw, j).Some? {
      var m := MatchAt(s, kw, j).value;
      if m.to < |s| {
        MatchAgrees(s, s + tail, kw, j, |s|);
      } else {
        MatchShape(s, kw, j);
        var a, d := s[..m.from], s[m.from..];
        assert s + tail == a + (d + tail);
        MatchBuilt(a, d, tail, kw, j);
      }
    }
  }

  lemma TrailerIgnored(s: string, tail: string, kw: string)
    requires Keyword(kw) && NoWords(tail)
    ensures FirstNumber(s + tail, kw) == FirstNumber(s, kw)
  {
    hide Search, MatchAt;
    forall j: nat ensures MatchAt(s + tail, kw, j) == MatchAt(s, kw, j) {
      TrailerMatch(s, tail, kw, j);
    }
    var k := SearchFinds(s, kw, 0);
    if Search(s, kw, 0).Some? {
      SearchFirst(s + tail, kw, k);
      var m := Search(s, kw, 0).value;
      assert (s + tail)[m.from..m.to] == s[m.from..m.to];
    } else {
      PastEnd(s, tail, kw);
      SearchNothing(s + tail, kw);
    }
  }

  lemma PastEnd(s: string, tail: string, kw: string)
    requires forall j: nat :: MatchAt(s + tail, kw, j) == MatchAt(s, kw, j)
    requires forall j :: 0 <= j < |s| ==> MatchAt(s, kw, j).None?
    ensures forall j :: 0 <= j < |s + tail| ==> MatchAt(s + tail, kw, j).None?
  {
    forall j: nat | |s| <= j < |s + tail| ensures MatchAt(s, kw, j).None? {
      if MatchAt(s, kw, j).Some? {
        MatchShape(s, kw, j);
      }
    }
  }

  lemma LeadMatch(lead: string, s: string, kw: string, j: nat)
    requires Keyword(kw) && NoWords(lead) && j < |lead|
    ensures MatchAt(lead + s, kw, j).None?
  {
    if KeywordAt(lead + s, kw, j) {
      KeywordLetter(lead + s, kw, j, 0);
    }
  }

  lemma LeadIgnored(lead: string, s: string, kw: string)
    requires Keyword(kw) && NoWords(lead)
    ensures FirstNumber(lead + s, kw) == FirstNumber(s, kw)
  {
    hide Search, MatchAt;
    var t := lead + s;
    forall j: nat | j < |lead| ensures MatchAt(t, kw, j).None? {
      LeadMatch(lead, s, kw, j);
    }
    var k := SearchFinds(s, kw, 0);
    forall j: nat | |lead| <= j < |t| && (Search(s, kw, 0).Some? ==> j - |lead| < k) ensures MatchAt(t, kw, j).None? {
      MatchRight(lead, s, kw, j - |lead|);
    }
    if Search(s, kw, 0).Some? {
      MatchRight(lead, s, kw, k);
      SearchFirst(t, kw, |lead| + k);
      var m := Search(s, kw, 0).value;
      assert t[|lead| + m.from..|lead| + m.to] == s[m.from..m.to];
    } else {
      SearchNothing(t, kw);
    }
  }

  lemma {:induction false} SemicolonsTail(s: string) returns (tail: string)
    ensures s == StripSemicolons(s) + tail && NoWords(tail)
    decreases |s|
  {
    if s != "" && s[|s| - 1] == ';' {
      tail := SemicolonsTail(s[..|s| - 1]);
      assert s == StripSemicolons(s) + (tail + ";");
      tail := tail + ";";
    } else {
      tail := "";
    }
  }

  lemma SpaceTail(s: string) returns (tail: string)
    ensures s == RightStrip(s) + tail && NoWords(tail)
  {
    var k := RightStripPrefix(s);
    tail := s[k..];
  }

  lemma RightStrippedNumber(s: string, kw: string)
    requires Keyword(kw)
    ensures FirstNumber(RightStrip(s), kw) == FirstNumber(s, kw)
  {
    hide FirstNumber;
    var tail := SpaceTail(s);
    TrailerIgnored(RightStrip(s), tail, kw);
  }

  lemma SemicolonsStrippedNumber(s: string, kw: string)
    requires Keyword(kw)
    ensures FirstNumber(StripSemicolons(s), kw) == FirstNumber(s, kw)
  {
    hide FirstNumber;
    var tail := SemicolonsTail(s);
    TrailerIgnored(StripSemicolons(s), tail, kw);
  }

  lemma LeftStrippedNumber(s: string, kw: string)
    requires Keyword(kw)
    ensures FirstNumber(LeftStrip(s), kw) == FirstNumber(s, kw)
  {
    hide FirstNumber;
    var k := LeftStripSuffix(s);
    assert s == s[..k] + s[k..];
    LeadIgnored(s[..k], s[k..], kw);
  }

  /** Stripping never changes a statement's own limit. */
  lemma StrippedNumbers(sql: string, kw: string)
    requires Keyword(kw)
    ensures FirstNumber(LimitStripped(sql), kw) == FirstNumber(sql, kw)
    ensures FirstNumber(TopStripped(sql), kw) == FirstNumber(sql, kw)
  {
    hide FirstNumber, RightStrip, LeftStrip, StripSemicolons;
    RightStrippedNumber(sql, kw);
    SemicolonsStrippedNumber(RightStrip(sql), kw);
    RightStrippedNumber(StripSemicolons(RightStrip(sql)), kw);
    LeftStrippedNumber(sql, kw);
    RightStrippedNumber(LeftStrip(sql), kw);
    SemicolonsStrippedNumber(Strip(sql), kw);
    LeftStrippedNumber(StripSemicolons(Strip(sql)), kw);
    RightStrippedNumber(LeftStrip(StripSemicolons(Strip(sql))), kw);
  }

  // ----- what is fetched ---------------------------------------------------------------------------------

  /** The rewritten statement fetches what the statement answers on its own, cut at the cap. */
  lemma LimitFetch(selected: seq<Row>, sql: string, n: nat)
    ensures Answer(selected, InjectLimit(sql, n), "LIMIT") == FirstRows(Answer(selected, sql, "LIMIT"), n)
  {
    hide FirstNumber, InjectLimit;
    LimitIsCapped(sql, n);
    StrippedNumbers(sql, "LIMIT");
    if FirstNumber(sql, "LIMIT").Some? {
      CapOfCap(selected, FirstNumber(sql, "LIMIT").value, n);
    }
  }

  /** The same of a cappable statement; any other is fetched whole or beyond the cap. */
  lemma TopFetch(selected: seq<Row>, sql: string, n: nat)
    requires n >= 1
    ensures var own, fetched := Answer(selected, sql, "TOP"), Answer(selected, InjectTop(sql, n), "TOP");
      if Cappable(TopStripped(sql)) then fetched == FirstRows(own, n)
      else own == selected && (fetched == own || exists m: nat :: m > n && fetched == FirstRows(own, m))
  {
    hide FirstNumber, InjectTop, Cappable;
    TopIsCappedExactly(sql, n);
    StrippedNumbers(sql, "TOP");
    if FirstNumber(sql, "TOP").Some? {
      CapOfCap(selected, FirstNumber(sql, "TOP").value, n);
    }
  }

  // ----- the page -------------------------------------------------------------------------------------------

  /** The first rows of the statement's own answer, no more than the maximum; truncated exactly when
      that answer has more. */
  predicate PageOf(p: Page, own: seq<Row>, maxRows: nat) {
    p.rows == FirstRows(own, maxRows) && p.rowCount == |p.rows| <= maxRows && (p.truncated <==> |own| > maxRows)
  }

  /** The PostgreSQL connector shows the page of the statement's own answer for every statement and
      every maximum that the API accepts, which is one or more; and no other page of a maximum of no
      rows than the empty one that says nothing is missing. */
  lemma PostgresPageExact(selected: seq<Row>, sql: string, maxRows: nat)
    ensures var own := Answer(selected, sql, "LIMIT");
      var fetched := Answer(selected, InjectLimit(sql, maxRows + 1), "LIMIT");
      |fetched| <= maxRows + 1 &&
      (PageOf(PostgresPage(fetched, maxRows), own, maxRows) <==> maxRows >= 1 || own == [])
  {
    hide Answer;
    LimitFetch(selected, sql, maxRows + 1);
  }

  /** The SQL Server connector does so for every statement, cappable or not. */
  lemma SqlServerPageExact(selected: seq<Row>, sql: string, maxRows: nat)
    ensures PageOf(SqlServerPage(Answer(selected, InjectTop(sql, maxRows + 1), "TOP"), maxRows),
      Answer(selected, sql, "TOP"), maxRows)
  {
    hide Answer, Cappable;
    TopFetch(selected, sql, maxRows + 1);
  }

  /** No more than the row beyond the maximum that shows there are more. */
  predicate FetchesEnough(selected: seq<Row>, sql: string, maxRows: nat) {
    |Answer(selected, InjectTop(sql, maxRows + 1), "TOP")| <= maxRows + 1
  }

  /** What it fetches for that is bounded, whatever is selected, exactly when the statement is cappable. */
  lemma SqlServerFetchBounded(sql: string, maxRows: nat)
    ensures (forall selected :: FetchesEnough(selected, sql, maxRows)) <==> Cappable(TopStripped(sql))
  {
    hide Answer, Cappable, InjectTop;
    forall selected | Cappable(TopStripped(sql)) ensures FetchesEnough(selected, sql, maxRows) {
      TopFetch(selected, sql, maxRows + 1);
    }
    if !Cappable(TopStripped(sql)) {
      var many: seq<Row> := seq(maxRows + 2, _ => []);
      TopFetch(many, sql, maxRows + 1);
      assert !FetchesEnough(many, sql, maxRows);
    }
  }
}
