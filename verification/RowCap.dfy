/** How a statement's row count is capped: _inject_limit of the PostgreSQL connector and
    _inject_top of the SQL Server one, on statements of ASCII characters. */
module RowCap {
  import opened Options
  import opened PyText
  import Decimal

  predicate WordChar(ch: char) {
    '0' <= ch <= '9' || 'a' <= ch <= 'z' || 'A' <= ch <= 'Z' || ch == '_'
  }

  function Upper(ch: char): char {
    if 'a' <= ch <= 'z' then ch - 'a' + 'A' else ch
  }

  /** The keyword stands at i, in any case. */
  predicate KeywordAt(s: string, kw: string, i: nat) {
    i + |kw| <= |s| && forall k :: 0 <= k < |kw| ==> Upper(s[i + k]) == kw[k]
  }

  predicate Keyword(kw: string) {
    |kw| > 0 && forall k :: 0 <= k < |kw| ==> 'A' <= kw[k] <= 'Z'
  }

  function DigitsEnd(s: string, i: nat): (k: nat)
    ensures i <= |s| ==> i <= k <= |s|
    ensures forall j :: i <= j < k && j < |s| ==> Decimal.IsDigit(s[j])
    ensures k < |s| ==> !Decimal.IsDigit(s[k])
    decreases |s| - i
  {
    if i < |s| && Decimal.IsDigit(s[i]) then DigitsEnd(s, i + 1) else i
  }

  /** Where the digits stand. */
  datatype Span = Span(from: nat, to: nat)

  predicate SpanOk(s: string, span: Span) {
    span.from < span.to <= |s| && Decimal.AllDigits(s[span.from..span.to])
  }

  /** \s+(\d+)\b matches at i; the span is the group. */
  function NumberAt(s: string, i: nat): (m: Option<Span>)
    ensures m.Some? ==> SpanOk(s, m.value)
  {
    var from := SkipSpace(s, i);
    var to := DigitsEnd(s, from);
    if from == i || from == to || (to < |s| && WordChar(s[to])) then None else Some(Span(from, to))
  }

  /** \bKW\s+(\d+)\b */
  function MatchAt(s: string, kw: string, i: nat): (m: Option<Span>)
    ensures m.Some? ==> SpanOk(s, m.value)
  {
    if !KeywordAt(s, kw, i) || (i > 0 && WordChar(s[i - 1])) then None else NumberAt(s, i + |kw|)
  }

  /** re.search from i on. */
  function Search(s: string, kw: string, i: nat): (m: Option<Span>)
    ensures m.Some? ==> SpanOk(s, m.value)
    decreases |s| - i
  {
    if i >= |s| then None
    else if MatchAt(s, kw, i).Some? then MatchAt(s, kw, i)
    else Search(s, kw, i + 1)
  }

  function Number(s: string, span: Span): nat
    requires SpanOk(s, span)
  {
    Decimal.Read(s[span.from..span.to])
  }

  /** The number after the first KW, if there is one. */
  function FirstNumber(s: string, kw: string): Option<nat> {
    var m := Search(s, kw, 0);
    if m.None? then None else Some(Number(s, m.value))
  }

  // ----- the rewriters ------------------------------------------------------------------------

  function StripSemicolons(s: string): string {
    if s != "" && s[|s| - 1] == ';' then StripSemicolons(s[..|s| - 1]) else s
  }

  function LimitStripped(sql: string): string {
    RightStrip(StripSemicolons(RightStrip(sql)))
  }

  function TopStripped(sql: string): string {
    Strip(StripSemicolons(Strip(sql)))
  }

  /** The existing number, or the cap in its place when it is larger. */
  function Capped(s: string, span: Span, n: nat): string
    requires SpanOk(s, span)
  {
    if Number(s, span) <= n then s else s[..span.from] + (Decimal.Print(n) + s[span.to..])
  }

  function InjectLimit(sql: string, n: nat): string {
    var s := LimitStripped(sql);
    var m := Search(s, "LIMIT", 0);
    if m.Some? then Capped(s, m.value, n)
    else s + (" LIMIT " + Decimal.Print(n))
  }

  predicate StartsWith(s: string, kw: string) {
    KeywordAt(s, kw, 0)
  }

  /** "LIMIT " in upper */
  predicate HasLimit(s: string) {
    exists i :: 0 <= i < |s| && KeywordAt(s, "LIMIT ", i)
  }

  /** How much of the statement stands before an inserted TOP. */
  function InsertAt(s: string): (at: Option<nat>)
    ensures at.Some? ==> at.value <= |s|
  {
    if StartsWith(s, "SELECT DISTINCT") then Some(15)
    else if StartsWith(s, "SELECT") then Some(6)
    else None
  }

  function WithTop(s: string, at: nat, n: nat): string
    requires at <= |s|
  {
    s[..at] + ((" TOP " + Decimal.Print(n)) + s[at..])
  }

  function Wrapped(s: string, n: nat): string {
    ("SELECT TOP " + Decimal.Print(n)) + (" * FROM (" + s + ") AS _q")
  }

  function InjectTop(sql: string, n: nat): string {
    var s := TopStripped(sql);
    var m := Search(s, "TOP", 0);
    if m.Some? then Capped(s, m.value, n)
    else if HasLimit(s) then s
    else if InsertAt(s).Some? then WithTop(s, InsertAt(s).value, n)
    else Wrapped(s, n)
  }

  // ----- searching ------------------------------------------------------------------------------

  lemma {:induction false} SearchFinds(s: string, kw: string, i: nat) returns (k: nat)
    ensures Search(s, kw, i).Some? ==> i <= k < |s| && MatchAt(s, kw, k) == Search(s, kw, i)
    ensures forall j :: i <= j < |s| && (Search(s, kw, i).Some? ==> j < k) ==> MatchAt(s, kw, j).None?
    decreases |s| - i
  {
    k := i;
    if i < |s| && MatchAt(s, kw, i).None? {
      k := SearchFinds(s, kw, i + 1);
    }
  }

  lemma SearchFirst(s: string, kw: string, k: nat)
    requires k < |s| && MatchAt(s, kw, k).Some?
    requires forall j :: 0 <= j < k ==> MatchAt(s, kw, j).None?
    ensures Search(s, kw, 0) == MatchAt(s, kw, k)
  {
    var i := SearchFinds(s, kw, 0);
  }

  lemma SearchNothing(s: string, kw: string)
    requires forall j :: 0 <= j < |s| ==> MatchAt(s, kw, j).None?
    ensures Search(s, kw, 0).None?
  {
    var i := SearchFinds(s, kw, 0);
  }

  lemma MatchShape(s: string, kw: string, i: nat)
    requires MatchAt(s, kw, i).Some?
    ensures var m := MatchAt(s, kw, i).value;
      (KeywordAt(s, kw, i) && (i > 0 ==> !WordChar(s[i - 1])) && i + |kw| < m.from &&
       (forall j :: i + |kw| <= j < m.from ==> IsSpace(s[j])) && (m.to < |s| ==> !WordChar(s[m.to])))
  {
    var m := MatchAt(s, kw, i).value;
    forall j: nat | i + |kw| <= j < m.from ensures IsSpace(s[j]) {
      SkipStops(s, i + |kw|, j);
    }
  }

  // ----- a match sees only a little of the text ------------------------------------------------

  /** The two texts agree up to n. */
  predicate Agree(s: string, t: string, n: nat) {
    n <= |s| && n <= |t| && forall k :: 0 <= k < n ==> s[k] == t[k]
  }

  lemma {:induction false} SkipAgrees(s: string, t: string, n: nat, i: nat)
    requires Agree(s, t, n) && i <= n
    ensures SkipSpace(s, i) < n ==> SkipSpace(t, i) == SkipSpace(s, i)
    decreases n - i
  {
    if i < n && IsSpace(s[i]) {
      SkipAgrees(s, t, n, i + 1);
    }
  }

  lemma {:induction false} DigitsAgree(s: string, t: string, n: nat, i: nat)
    requires Agree(s, t, n) && i <= n
    ensures DigitsEnd(s, i) < n || (DigitsEnd(s, i) == n == |t|) ==> DigitsEnd(t, i) == DigitsEnd(s, i)
    decreases n - i
  {
    if i < n && Decimal.IsDigit(s[i]) {
      DigitsAgree(s, t, n, i + 1);
    }
  }

  /** A match within the common beginning is a match in the other text. */
  lemma MatchAgrees(s: string, t: string, kw: string, i: nat, n: nat)
    requires Agree(s, t, n) && MatchAt(s, kw, i).Some?
    requires var to := MatchAt(s, kw, i).value.to; to < n || to == n == |t|
    ensures MatchAt(t, kw, i) == MatchAt(s, kw, i)
  {
    MatchShape(s, kw, i);
    var m := MatchAt(s, kw, i).value;
    SkipAgrees(s, t, n, i + |kw|);
    DigitsAgree(s, t, n, m.from);
    assert KeywordAt(t, kw, i);
  }

  lemma {:induction false} DigitsRight(a: string, c: string, i: nat)
    requires i <= |c|
    ensures DigitsEnd(a + c, |a| + i) == |a| + DigitsEnd(c, i)
    decreases |c| - i
  {
    if i < |c| && Decimal.IsDigit(c[i]) {
      DigitsRight(a, c, i + 1);
    }
  }

  lemma KeywordRight(a: string, c: string, kw: string, i: nat)
    ensures KeywordAt(a + c, kw, |a| + i) <==> KeywordAt(c, kw, i)
  {
    var s := a + c;
    if i + |kw| <= |c| {
      forall k | 0 <= k < |kw| ensures Upper(s[|a| + i + k]) == kw[k] <==> Upper(c[i + k]) == kw[k] {
      }
    }
  }

  lemma NumberRight(a: string, c: string, i: nat)
    requires i <= |c|
    ensures match NumberAt(c, i)
            case None => NumberAt(a + c, |a| + i).None?
            case Some(m) => NumberAt(a + c, |a| + i) == Some(Span(|a| + m.from, |a| + m.to))
  {
    var from := SkipSpace(c, i);
    var to := DigitsEnd(c, from);
    SkipRight(a, c, i);
    DigitsRight(a, c, from);
    assert to < |c| ==> (a + c)[|a| + to] == c[to];
    hide SkipSpace, DigitsEnd;
  }

  /** What stands before a text does not matter, except for the character that touches a keyword. */
  lemma MatchRight(a: string, c: string, kw: string, i: nat)
    requires i <= |c| && (i == 0 && a != "" ==> !WordChar(a[|a| - 1]))
    ensures match MatchAt(c, kw, i)
            case None => MatchAt(a + c, kw, |a| + i).None?
            case Some(m) => MatchAt(a + c, kw, |a| + i) == Some(Span(|a| + m.from, |a| + m.to))
  {
    hide NumberAt;
    KeywordRight(a, c, kw, i);
    assert i > 0 ==> (a + c)[|a| + i - 1] == c[i - 1];
    if KeywordAt(c, kw, i) {
      NumberRight(a, c, i + |kw|);
    }
  }

  lemma KeywordLetter(t: string, kw: string, i: nat, k: nat)
    requires Keyword(kw) && KeywordAt(t, kw, i) && k < |kw|
    ensures 'A' <= Upper(t[i + k]) <= 'Z'
  {
    assert Upper(t[i + k]) == kw[k];
  }

  /** The characters of a match, in their three parts. */
  lemma MatchChars(t: string, kw: string, j: nat, x: nat)
    requires Keyword(kw) && MatchAt(t, kw, j).Some? && j <= x < MatchAt(t, kw, j).value.to
    ensures x < j + |kw| ==> 'A' <= Upper(t[x]) <= 'Z'
    ensures j + |kw| <= x < MatchAt(t, kw, j).value.from ==> IsSpace(t[x])
    ensures MatchAt(t, kw, j).value.from <= x ==> Decimal.IsDigit(t[x])
  {
    MatchShape(t, kw, j);
    var m := MatchAt(t, kw, j).value;
    if x < j + |kw| {
      KeywordLetter(t, kw, j, x - j);
    } else if m.from <= x {
      assert t[m.from..m.to][x - m.from] == t[x];
    }
  }

  /** No match before a word that starts at k reaches beyond its start. */
  lemma EarlierEnds(t: string, kw: string, j: nat, k: nat)
    requires MatchAt(t, kw, j).Some? && Keyword(kw) && j < k < |t|
    requires !WordChar(t[k - 1]) && 'A' <= Upper(t[k]) <= 'Z'
    ensures MatchAt(t, kw, j).value.to <= k
  {
    if MatchAt(t, kw, j).value.to > k {
      MatchChars(t, kw, j, k);
      MatchChars(t, kw, j, k - 1);
    }
  }

  /** Keyword, spaces, digits, and no word character after them. */
  lemma MatchBuilt(a: string, d: string, c: string, kw: string, i: nat)
    requires i + |kw| < |a| && KeywordAt(a, kw, i) && (i > 0 ==> !WordChar(a[i - 1]))
    requires forall j :: i + |kw| <= j < |a| ==> IsSpace(a[j])
    requires d != "" && Decimal.AllDigits(d) && (c == "" || !WordChar(c[0]))
    ensures MatchAt(a + (d + c), kw, i) == Some(Span(|a|, |a| + |d|))
    ensures (a + (d + c))[|a|..|a| + |d|] == d
  {
    var t := a + (d + c);
    BuiltParts(a, d, c, kw, i);
    assert t[|a|..|a| + |d|] == d;
    assert |a| + |d| < |t| ==> t[|a| + |d|] == c[0];
    assert i > 0 ==> t[i - 1] == a[i - 1];
  }

  lemma BuiltParts(a: string, d: string, c: string, kw: string, i: nat)
    requires i + |kw| < |a| && KeywordAt(a, kw, i)
    requires forall j :: i + |kw| <= j < |a| ==> IsSpace(a[j])
    requires d != "" && Decimal.AllDigits(d) && (c == "" || !WordChar(c[0]))
    ensures KeywordAt(a + (d + c), kw, i) && SkipSpace(a + (d + c), i + |kw|) == |a|
    ensures DigitsEnd(a + (d + c), |a|) == |a| + |d|
  {
    SkipAll(a, i + |kw|);
    SkipLeft(a, d + c, i + |kw|);
    assert (d + c)[0] == d[0];
    DigitsRight(a, d + c, 0);
    DigitsOf(d, c, 0);
  }

  lemma {:induction false} DigitsOf(d: string, c: string, i: nat)
    requires Decimal.AllDigits(d) && (c == "" || !WordChar(c[0])) && i <= |d|
    ensures DigitsEnd(d + c, i) == |d|
    decreases |d| - i
  {
    if i < |d| {
      DigitsOf(d, c, i + 1);
    }
  }

  // ----- an existing number ------------------------------------------------------------------------

  lemma ReplacedMatch(s: string, kw: string, d: string, k: nat, m: Span)
    requires Keyword(kw) && k < |s| && MatchAt(s, kw, k) == Some(m) && (forall j :: 0 <= j < k ==> MatchAt(s, kw, j).None?)
    requires d != "" && Decimal.AllDigits(d)
    ensures var out := s[..m.from] + (d + s[m.to..]);
      (Search(out, kw, 0) == Some(Span(m.from, m.from + |d|)) && out[m.from..m.from + |d|] == d)
  {
    hide Search, MatchAt;
    MatchShape(s, kw, k);
    KeywordLetter(s, kw, k, 0);
    var a, c := s[..m.from], s[m.to..];
    var out := a + (d + c);
    assert KeywordAt(a, kw, k);
    MatchBuilt(a, d, c, kw, k);
    assert Agree(out, s, m.from);
    forall j: nat | j < k ensures MatchAt(out, kw, j).None? {
      NoneEarlier(s, out, kw, j, k, m.from);
    }
    SearchFirst(out, kw, k);
  }

  /** The smaller of the existing number and n, everything else in place. */
  predicate NumberReplaced(s: string, out: string, kw: string, n: nat) {
    var m, m' := Search(s, kw, 0), Search(out, kw, 0);
    m.Some? && m'.Some? && out[..m'.value.from] == s[..m.value.from] && out[m'.value.to..] == s[m.value.to..] &&
    Number(out, m'.value) == if Number(s, m.value) <= n then Number(s, m.value) else n
  }

  lemma ReplacedNumber(s: string, kw: string, n: nat)
    requires Keyword(kw) && Search(s, kw, 0).Some?
    ensures NumberReplaced(s, Capped(s, Search(s, kw, 0).value, n), kw, n)
  {
    hide Search, MatchAt, Decimal.Read;
    var m := Search(s, kw, 0).value;
    if Number(s, m) > n {
      var k := SearchFinds(s, kw, 0);
      var d := Decimal.Print(n);
      ReplacedMatch(s, kw, d, k, m);
      Decimal.ReadPrint(n);
      CutAt(s[..m.from], d, s[m.to..]);
    }
  }

  lemma CutAt(a: string, d: string, c: string)
    ensures (a + (d + c))[..|a|] == a && (a + (d + c))[|a| + |d|..] == c
  {
  }

  lemma NoneEarlier(s: string, out: string, kw: string, j: nat, k: nat, n: nat)
    requires Agree(out, s, n) && Keyword(kw) && j < k < n && MatchAt(s, kw, j).None?
    requires !WordChar(s[k - 1]) && 'A' <= Upper(s[k]) <= 'Z'
    ensures MatchAt(out, kw, j).None?
  {
    if MatchAt(out, kw, j).Some? {
      EarlierEnds(out, kw, j, k);
      MatchAgrees(out, s, kw, j, n);
    }
  }

  // ----- LIMIT -----------------------------------------------------------------------------------------

  function AtMost(existing: Option<nat>, n: nat): nat {
    if existing.Some? && existing.value <= n then existing.value else n
  }

  lemma InsertedFirst(s: string, out: string, kw: string)
    requires Keyword(kw) && Agree(out, s, |s|) && |s| + 1 < |out| && out[|s|] == ' '
    requires 'A' <= Upper(out[|s| + 1]) <= 'Z' && (forall j :: 0 <= j < |s| ==> MatchAt(s, kw, j).None?)
    requires MatchAt(out, kw, |s| + 1).Some?
    ensures Search(out, kw, 0) == MatchAt(out, kw, |s| + 1)
  {
    hide Search, MatchAt;
    forall j: nat | j < |s| + 1 ensures MatchAt(out, kw, j).None? {
      NoneBeforeInsert(s, out, kw, j, |s|);
    }
    SearchFirst(out, kw, |s| + 1);
  }

  lemma NumberFound(out: string, kw: string, span: Span, d: string)
    requires Search(out, kw, 0) == Some(span) && SpanOk(out, span) && out[span.from..span.to] == d
    ensures Decimal.AllDigits(d) && FirstNumber(out, kw) == Some(Decimal.Read(d))
  {
    hide Search;
  }

  lemma AppendedText(s: string, clause: string)
    requires |clause| > 1
    ensures var out := s + clause;
      (out[|s|] == clause[0] && out[|s| + 1] == clause[1] && Agree(out, s, |s|) && |s| + 1 < |out|)
  {
  }

  lemma LimitAppended(s: string, n: nat)
    requires Search(s, "LIMIT", 0).None?
    ensures FirstNumber(s + (" LIMIT " + Decimal.Print(n)), "LIMIT") == Some(n)
  {
    hide Search, MatchAt, Decimal.Print, Decimal.Read, FirstNumber, Agree;
    var d := Decimal.Print(n);
    var clause := " LIMIT " + d;
    var out := s + clause;
    var none := SearchFinds(s, "LIMIT", 0);
    AppendedText(s, clause);
    AppendedMatch(s, d);
    InsertedFirst(s, out, "LIMIT");
    NumberFound(out, "LIMIT", Span(|s| + 7, |s| + 7 + |d|), d);
    Decimal.ReadPrint(n);
  }

  lemma AppendedMatch(s: string, d: string)
    requires d != "" && Decimal.AllDigits(d)
    ensures var out := s + (" LIMIT " + d);
      (MatchAt(out, "LIMIT", |s| + 1) == Some(Span(|s| + 7, |s| + 7 + |d|)) && out[|s| + 7..|s| + 7 + |d|] == d)
  {
    hide MatchAt;
    var a := s + " LIMIT ";
    assert s + (" LIMIT " + d) == a + (d + "");
    assert KeywordAt(a, "LIMIT", |s| + 1) by {
      KeywordRight(s, " LIMIT ", "LIMIT", 1);
    }
    MatchBuilt(a, d, "", "LIMIT", |s| + 1);
  }

  /** What is inserted at the end of a text, after a space, adds no match before it. */
  lemma NoneBeforeInsert(s: string, out: string, kw: string, j: nat, at: nat)
    requires Keyword(kw) && |s| == at && Agree(out, s, at) && at + 1 < |out| && out[at] == ' ' && j <= at
    requires 'A' <= Upper(out[at + 1]) <= 'Z' && (j < at ==> MatchAt(s, kw, j).None?)
    ensures MatchAt(out, kw, j).None?
  {
    if j == at {
      if KeywordAt(out, kw, at) {
        KeywordLetter(out, kw, at, 0);
      }
    } else if MatchAt(out, kw, j).Some? {
      EarlierEnds(out, kw, j, at + 1);
      NotAfterSpace(out, kw, j, at);
      MatchAgrees(out, s, kw, j, at);
    }
  }

  lemma NotAfterSpace(out: string, kw: string, j: nat, at: nat)
    requires Keyword(kw) && MatchAt(out, kw, j).Some? && j <= at < |out| && out[at] == ' '
    ensures MatchAt(out, kw, j).value.to != at + 1
  {
    if MatchAt(out, kw, j).value.to == at + 1 {
      MatchChars(out, kw, j, at);
    }
  }

  /** For every statement: the first LIMIT number of the rewritten one is the smaller of the existing
      number and n, or n where there was none. */
  lemma LimitIsCapped(sql: string, n: nat)
    ensures FirstNumber(InjectLimit(sql, n), "LIMIT") == Some(AtMost(FirstNumber(LimitStripped(sql), "LIMIT"), n))
  {
    var s := LimitStripped(sql);
    if Search(s, "LIMIT", 0).Some? {
      ReplacedNumber(s, "LIMIT", n);
    } else {
      LimitAppended(s, n);
    }
  }

  /** And nothing but that number's digits changes, or the clause is appended. */
  lemma LimitChangesOnlyNumber(sql: string, n: nat)
    ensures var s, out := LimitStripped(sql), InjectLimit(sql, n);
      var m, m' := Search(s, "LIMIT", 0), Search(out, "LIMIT", 0);
      (m'.Some? &&
       (m.Some? ==> out[..m'.value.from] == s[..m.value.from] && out[m'.value.to..] == s[m.value.to..]) &&
       (m.None? ==> out == s + " LIMIT " + Decimal.Print(n)))
  {
    var s := LimitStripped(sql);
    if Search(s, "LIMIT", 0).Some? {
      ReplacedNumber(s, "LIMIT", n);
    } else {
      LimitAppended(s, n);
      assert s + (" LIMIT " + Decimal.Print(n)) == s + " LIMIT " + Decimal.Print(n);
    }
  }

  // ----- TOP --------------------------------------------------------------------------------------------

  predicate NoDigits(s: string) {
    forall k :: 0 <= k < |s| ==> !Decimal.IsDigit(s[k])
  }

  lemma NoDigitsNoMatch(s: string, kw: string, j: nat)
    requires NoDigits(s) && Keyword(kw)
    ensures MatchAt(s, kw, j).None?
  {
    if MatchAt(s, kw, j).Some? {
      MatchChars(s, kw, j, MatchAt(s, kw, j).value.from);
    }
  }

  lemma HeadHasNoDigits(s: string)
    requires InsertAt(s).Some?
    ensures NoDigits(s[..InsertAt(s).value])
  {
    var at := InsertAt(s).value;
    var head := if at == 15 then "SELECT DISTINCT" else "SELECT";
    forall k | 0 <= k < at ensures !Decimal.IsDigit(s[k]) {
      assert Upper(s[0 + k]) == head[k];
      assert 'A' <= head[k] <= 'Z' || head[k] == ' ';
    }
  }

  /** The text of an inserted clause, cut where its digits stand. */
  lemma TopText(s: string, at: nat, d: string)
    requires at <= |s|
    ensures s[..at] + ((" TOP " + d) + s[at..]) == (s[..at] + " TOP ") + (d + s[at..])
    ensures KeywordAt(s[..at] + " TOP ", "TOP", at + 1)
  {
    KeywordRight(s[..at], " TOP ", "TOP", 1);
  }

  lemma TopMatch(s: string, at: nat, d: string)
    requires at <= |s| && (at < |s| ==> !WordChar(s[at])) && d != "" && Decimal.AllDigits(d)
    ensures var out := s[..at] + ((" TOP " + d) + s[at..]);
      (MatchAt(out, "TOP", at + 1) == Some(Span(at + 5, at + 5 + |d|)) && out[at + 5..at + 5 + |d|] == d)
  {
    hide MatchAt;
    TopText(s, at, d);
    MatchBuilt(s[..at] + " TOP ", d, s[at..], "TOP", at + 1);
  }

  lemma TopInserted(s: string, at: nat, n: nat)
    requires at <= |s| && NoDigits(s[..at]) && (at < |s| ==> !WordChar(s[at]))
    ensures FirstNumber(WithTop(s, at, n), "TOP") == Some(n)
  {
    hide Search, MatchAt, Decimal.Print, Decimal.Read, FirstNumber, Agree;
    var d, head := Decimal.Print(n), s[..at];
    var clause := (" TOP " + d) + s[at..];
    var out := head + clause;
    forall j: nat | j < at ensures MatchAt(head, "TOP", j).None? {
      NoDigitsNoMatch(head, "TOP", j);
    }
    AppendedText(head, clause);
    TopMatch(s, at, d);
    InsertedFirst(head, out, "TOP");
    NumberFound(out, "TOP", Span(at + 5, at + 5 + |d|), d);
    Decimal.ReadPrint(n);
  }

  lemma WrappedMatch(d: string, c: string)
    requires d != "" && Decimal.AllDigits(d) && c != "" && !WordChar(c[0])
    ensures var out := "SELECT" + (" TOP " + (d + c));
      (MatchAt(out, "TOP", 7) == Some(Span(11, 11 + |d|)) && out[11..11 + |d|] == d)
  {
    hide MatchAt;
    var a := "SELECT TOP ";
    assert "SELECT" + (" TOP " + (d + c)) == a + (d + c);
    assert KeywordAt(a, "TOP", 7) by {
      KeywordRight("SELECT ", "TOP ", "TOP", 0);
      assert "SELECT " + "TOP " == a;
    }
    MatchBuilt(a, d, c, "TOP", 7);
  }

  lemma TopWrapped(s: string, n: nat)
    ensures FirstNumber(Wrapped(s, n), "TOP") == Some(n)
  {
    hide Search, MatchAt, Decimal.Print, Decimal.Read, FirstNumber, Agree;
    var d, c := Decimal.Print(n), " * FROM (" + s + ") AS _q";
    var clause := " TOP " + (d + c);
    var out := "SELECT" + clause;
    assert c[0] == ' ';
    WrappedText(d, c);
    AppendedText("SELECT", clause);
    WrappedMatch(d, c);
    forall j: nat | j < 6 ensures MatchAt("SELECT", "TOP", j).None? {
      NoDigitsNoMatch("SELECT", "TOP", j);
    }
    InsertedFirst("SELECT", out, "TOP");
    NumberFound(out, "TOP", Span(11, 11 + |d|), d);
    Decimal.ReadPrint(n);
  }

  lemma WrappedText(d: string, c: string)
    ensures ("SELECT TOP " + d) + c == "SELECT" + (" TOP " + (d + c))
  {
    assert "SELECT TOP " == "SELECT" + " TOP ";
  }

  // ----- a keyword that runs on ---------------------------------------------------------------------------

  lemma {:induction false} LongerNumber(d: string, x: string)
    requires Decimal.AllDigits(d) && Decimal.AllDigits(x) && x != ""
    ensures Decimal.AllDigits(d + x) && Decimal.Read(d + x) >= 10 * Decimal.Read(d)
  {
    assert (d + x)[..|d + x| - 1] == d + x[..|x| - 1];
    if |x| == 1 {
      assert d + x[..0] == d;
    } else {
      LongerNumber(d, x[..|x| - 1]);
    }
  }

  lemma {:induction false} DigitsOver(d: string, c: string, i: nat)
    requires Decimal.AllDigits(d) && i <= |d|
    ensures DigitsEnd(d + c, i) == |d| + DigitsEnd(c, 0)
    decreases |d| - i
  {
    if i < |d| {
      DigitsOver(d, c, i + 1);
    } else {
      DigitsRight(d, c, 0);
    }
  }

  lemma MatchTells(t: string, kw: string, i: nat, m: Span)
    requires MatchAt(t, kw, i) == Some(m)
    ensures i + |kw| <= |t| && m == Span(SkipSpace(t, i + |kw|), DigitsEnd(t, SkipSpace(t, i + |kw|)))
    ensures m.to < |t| ==> !WordChar(t[m.to])
  {
  }

  lemma GluedScan(a: string, d: string, c: string, from: nat)
    requires d != "" && Decimal.AllDigits(d) && from <= |a| && forall j :: from <= j < |a| ==> IsSpace(a[j])
    ensures SkipSpace(a + (d + c), from) == |a|
    ensures DigitsEnd(a + (d + c), |a|) == |a| + |d| + DigitsEnd(c, 0)
  {
    hide DigitsEnd;
    assert (d + c)[0] == d[0];
    SkipAll(a, from);
    SkipLeft(a, d + c, from);
    DigitsRight(a, d + c, 0);
    DigitsOver(d, c, 0);
  }

  lemma GluedSpan(a: string, d: string, c: string, kw: string, i: nat, m: Span)
    requires d != "" && Decimal.AllDigits(d) && c != "" && WordChar(c[0])
    requires i + |kw| < |a| && forall j :: i + |kw| <= j < |a| ==> IsSpace(a[j])
    requires MatchAt(a + (d + c), kw, i) == Some(m)
    ensures m == Span(|a|, |a| + |d| + DigitsEnd(c, 0)) && 0 < DigitsEnd(c, 0) <= |c|
  {
    hide MatchAt, SkipSpace, DigitsEnd;
    var t := a + (d + c);
    assert t[|a| + |d|] == c[0];
    GluedScan(a, d, c, i + |kw|);
    MatchTells(t, kw, i, m);
  }

  lemma SliceOver(a: string, d: string, c: string, e: nat)
    requires e <= |c|
    ensures (a + (d + c))[|a|..|a| + |d| + e] == d + c[..e]
  {
  }

  /** Digits glued to a word: either no number, or a larger one. */
  lemma GluedNumber(a: string, d: string, c: string, kw: string, i: nat, m: Span)
    requires d != "" && Decimal.AllDigits(d) && Decimal.Read(d) > 0 && c != "" && WordChar(c[0])
    requires i + |kw| < |a| && forall j :: i + |kw| <= j < |a| ==> IsSpace(a[j])
    requires MatchAt(a + (d + c), kw, i) == Some(m)
    ensures Number(a + (d + c), m) > Decimal.Read(d)
  {
    hide MatchAt, DigitsEnd, Decimal.Read;
    GluedSpan(a, d, c, kw, i, m);
    var e := DigitsEnd(c, 0);
    DigitsSlice(c, e);
    SliceOver(a, d, c, e);
    LongerNumber(d, c[..e]);
  }

  lemma DigitsSlice(c: string, e: nat)
    requires e == DigitsEnd(c, 0)
    ensures e <= |c| && Decimal.AllDigits(c[..e])
  {
  }

  lemma NoMatchAfterWord(t: string, kw: string, j: nat)
    requires 0 < j <= |t| && WordChar(t[j - 1])
    ensures MatchAt(t, kw, j).None?
  {
  }

  /** Where the inserted clause could be matched at all: at its own keyword. */
  lemma OnlyAtKeyword(s: string, at: nat, d: string, j: nat)
    requires at < |s| && NoDigits(s[..at]) && d != "" && Decimal.AllDigits(d) && WordChar(s[at])
    requires forall i :: 0 <= i < |s| ==> MatchAt(s, "TOP", i).None?
    requires var out := s[..at] + ((" TOP " + d) + s[at..]); j < |out| && j != at + 1
    ensures MatchAt(s[..at] + ((" TOP " + d) + s[at..]), "TOP", j).None?
  {
    hide MatchAt;
    var head, c := s[..at], s[at..];
    var clause := (" TOP " + d) + c;
    var out := head + clause;
    AppendedText(head, clause);
    if j <= at {
      if j < at {
        NoDigitsNoMatch(head, "TOP", j);
      }
      NoneBeforeInsert(head, out, "TOP", j, at);
    } else if j <= at + 5 + |d| {
      InsideClause(head, d, c, j);
    } else {
      var i := j - (at + 5 + |d|);
      AfterClause(s, at, d, i);
    }
  }

  lemma InsideClause(head: string, d: string, c: string, j: nat)
    requires d != "" && Decimal.AllDigits(d) && |head| + 1 < j <= |head| + 5 + |d|
    ensures MatchAt(head + ((" TOP " + d) + c), "TOP", j).None?
  {
    var out := head + ((" TOP " + d) + c);
    var k := j - |head| - 5;
    if k == 0 {
      assert out[j] == d[0];
      if KeywordAt(out, "TOP", j) {
        KeywordLetter(out, "TOP", j, 0);
      }
    } else {
      assert out[j - 1] == if k < 0 then "TOP"[j - 2 - |head|] else d[k - 1];
      NoMatchAfterWord(out, "TOP", j);
    }
  }

  lemma AfterClause(s: string, at: nat, d: string, i: nat)
    requires at < |s| && 0 < i < |s| - at && MatchAt(s, "TOP", at + i).None?
    ensures MatchAt(s[..at] + ((" TOP " + d) + s[at..]), "TOP", at + 5 + |d| + i).None?
  {
    hide MatchAt;
    var c := s[at..];
    var front := s[..at] + (" TOP " + d);
    assert s[..at] + ((" TOP " + d) + c) == front + c && |front| == at + 5 + |d|;
    assert s == s[..at] + c;
    MatchRight(front, c, "TOP", i);
    MatchRight(s[..at], c, "TOP", i);
  }

  /** No number, or a larger one. */
  predicate Beyond(number: Option<nat>, n: nat) {
    number.Some? ==> number.value > n
  }

  lemma TopGlued(s: string, at: nat, n: nat)
    requires n >= 1 && at < |s| && NoDigits(s[..at]) && WordChar(s[at]) && Search(s, "TOP", 0).None?
    ensures Beyond(FirstNumber(WithTop(s, at, n), "TOP"), n)
  {
    hide Search, MatchAt, Decimal.Print, Decimal.Read;
    var out := WithTop(s, at, n);
    var none := SearchFinds(s, "TOP", 0);
    var k := SearchFinds(out, "TOP", 0);
    if Search(out, "TOP", 0).Some? {
      if k != at + 1 {
        OnlyAtKeyword(s, at, Decimal.Print(n), k);
      }
      GluedTop(s, at, n, MatchAt(out, "TOP", at + 1).value);
    }
  }

  lemma GluedTop(s: string, at: nat, n: nat, m: Span)
    requires n >= 1 && at < |s| && WordChar(s[at]) && MatchAt(WithTop(s, at, n), "TOP", at + 1) == Some(m)
    ensures Number(WithTop(s, at, n), m) > n
  {
    hide MatchAt, Decimal.Print, Decimal.Read;
    var d := Decimal.Print(n);
    Decimal.ReadPrint(n);
    TopText(s, at, d);
    GluedNumber(s[..at] + " TOP ", d, s[at..], "TOP", at + 1, m);
  }

  /** A statement SQL Server's cap takes hold of: it has a TOP number, or else no LIMIT, and no word
      character right behind the SELECT or SELECT DISTINCT it begins with. */
  predicate Cappable(s: string) {
    Search(s, "TOP", 0).Some? ||
    (!HasLimit(s) && var at := InsertAt(s); (at.Some? && at.value < |s| ==> !WordChar(s[at.value])))
  }

  /** For every statement and every positive cap, the first TOP number of the rewritten statement is
      the smaller of the existing number and the cap exactly when the statement is cappable; when it
      is not, there is no number or one beyond the cap. */
  lemma TopIsCappedExactly(sql: string, n: nat)
    requires n >= 1
    ensures FirstNumber(InjectTop(sql, n), "TOP") == Some(AtMost(FirstNumber(TopStripped(sql), "TOP"), n)) <==>
      Cappable(TopStripped(sql))
    ensures !Cappable(TopStripped(sql)) ==>
      FirstNumber(TopStripped(sql), "TOP").None? && Beyond(FirstNumber(InjectTop(sql, n), "TOP"), n)
  {
    hide Search, MatchAt, Decimal.Print, WithTop, Wrapped, HasLimit;
    var s := TopStripped(sql);
    if Search(s, "TOP", 0).Some? {
      ReplacedNumber(s, "TOP", n);
    } else if !HasLimit(s) {
      var at := InsertAt(s);
      if at.None? {
        TopWrapped(s, n);
      } else {
        HeadHasNoDigits(s);
        if at.value < |s| && WordChar(s[at.value]) {
          TopGlued(s, at.value, n);
        } else {
          TopInserted(s, at.value, n);
        }
      }
    }
  }

  /** A statement that the cap does not reach: the word stands in a string literal. */
  const QUOTED_LIMIT := "SELECT 'LIMIT ' FROM t"

  lemma QuotedLimitHasLimit()
    ensures HasLimit(QUOTED_LIMIT)
  {
    assert KeywordAt(QUOTED_LIMIT, "LIMIT ", 8);
  }

  lemma QuotedLimitHasNoTop()
    ensures Search(QUOTED_LIMIT, "TOP", 0).None?
  {
    hide Search, MatchAt;
    assert NoDigits(QUOTED_LIMIT);
    forall j: nat | j < |QUOTED_LIMIT| ensures MatchAt(QUOTED_LIMIT, "TOP", j).None? {
      NoDigitsNoMatch(QUOTED_LIMIT, "TOP", j);
    }
    SearchNothing(QUOTED_LIMIT, "TOP");
  }

  lemma QuotedLimitIsTight()
    ensures TopStripped(QUOTED_LIMIT) == QUOTED_LIMIT
  {
    hide Strip;
    StripTight(QUOTED_LIMIT);
  }

  lemma QuotedLimitIsUncapped(n: nat)
    ensures !Cappable(QUOTED_LIMIT) && InjectTop(QUOTED_LIMIT, n) == QUOTED_LIMIT
  {
    QuotedLimitIsTight();
    QuotedLimitHasNoTop();
    QuotedLimitHasLimit();
    hide Search, HasLimit, TopStripped, InsertAt;
  }
}
