/** The texts around the row cap, character by character: what a number behind a keyword is, what is
    stripped from a statement, and where a clause goes that was not there. */
module RowTexts {
  import opened CharClasses
  import opened LetterCase
  import opened Options
  import opened PyText
  import opened RowCap
  import Decimal

  // ----- the number behind a keyword -----------------------------------------------------------------

  /** The character joins a word: a letter, a digit or an underscore. */
  predicate Joins(ch: char) {
    ch in SMALL || ch in CAPITAL || ch in DIGITS || ch == '_'
  }

  lemma JoinsIsWordChar(ch: char)
    ensures Joins(ch) <==> WordChar(ch)
  {
    SmallLetters(ch);
    CapitalLetters(ch);
    DecimalDigits(ch);
  }

  /** At i stands the keyword in any case, as a word of its own, then white space, then a number that is
      a word of its own. */
  ghost predicate Stands(s: string, kw: string, i: nat, span: Span) {
    i + |kw| < span.from < span.to <= |s| &&
    SameText(s[i..i + |kw|], kw) && (i > 0 ==> !Joins(s[i - 1])) &&
    AllSpace(s[i + |kw|..span.from]) &&
    Decimal.AllDigits(s[span.from..span.to]) && (span.to < |s| ==> !Joins(s[span.to]))
  }

  lemma UpperLetter(a: char, k: char)
    requires 'A' <= k <= 'Z'
    ensures Upper(a) == k <==> SameLetter(a, k)
  {
  }

  lemma KeywordByLetters(s: string, kw: string, i: nat)
    requires Keyword(kw) && i + |kw| <= |s|
    ensures KeywordAt(s, kw, i) <==> SameText(s[i..i + |kw|], kw)
  {
    hide Upper, SameLetter;
    var t := s[i..i + |kw|];
    forall k | 0 <= k < |kw| ensures t[k] == s[i + k] && (Upper(s[i + k]) == kw[k] <==> SameLetter(t[k], kw[k])) {
      UpperLetter(s[i + k], kw[k]);
    }
  }

  lemma {:induction false} SpaceEnds(s: string, i: nat, end: nat)
    requires i <= end <= |s| && AllSpace(s[i..end]) && (end < |s| ==> !IsSpace(s[end]))
    ensures SkipSpace(s, i) == end
    decreases end - i
  {
    if i < end {
      assert s[i..end][0] == s[i];
      assert s[i + 1..end] == s[i..end][1..];
      SpaceEnds(s, i + 1, end);
    }
  }

  lemma {:induction false} DigitsEndAt(s: string, i: nat, end: nat)
    requires i <= end <= |s| && Decimal.AllDigits(s[i..end]) && (end < |s| ==> !Decimal.IsDigit(s[end]))
    ensures DigitsEnd(s, i) == end
    decreases end - i
  {
    if i < end {
      assert s[i..end][0] == s[i];
      assert s[i + 1..end] == s[i..end][1..];
      DigitsEndAt(s, i + 1, end);
    }
  }

  /** The pattern matches at a position with a number exactly when that number stands there. */
  lemma MatchExactly(s: string, kw: string, i: nat, span: Span)
    requires Keyword(kw)
    ensures MatchAt(s, kw, i) == Some(span) <==> Stands(s, kw, i, span)
  {
    if i + |kw| <= |s| {
      KeywordByLetters(s, kw, i);
    }
    if 0 < i <= |s| {
      JoinsIsWordChar(s[i - 1]);
    }
    if span.to < |s| {
      JoinsIsWordChar(s[span.to]);
    }
    hide KeywordAt, SameText, Joins, WordChar;
    if MatchAt(s, kw, i) == Some(span) {
      MatchShape(s, kw, i);
    } else if Stands(s, kw, i, span) {
      assert Decimal.IsDigit(s[span.from..span.to][0]);
      SpaceEnds(s, i + |kw|, span.from);
      DigitsEndAt(s, span.from, span.to);
    }
  }

  lemma StandsInside(s: string, kw: string, i: nat, span: Span)
    requires Stands(s, kw, i, span)
    ensures i < |s|
  {
  }

  lemma NumberIsStanding(s: string, kw: string, i: nat, span: Span)
    requires Keyword(kw) && Stands(s, kw, i, span)
    requires forall j: nat, other :: j < i ==> !Stands(s, kw, j, other)
    ensures Search(s, kw, 0) == Some(span) && SpanOk(s, span)
    ensures Decimal.Read(s[span.from..span.to]) == Decimal.Value(s[span.from..span.to])
  {
    hide Stands, MatchAt, Search;
    MatchExactly(s, kw, i, span);
    assert i < |s| by { StandsInside(s, kw, i, span); }
    forall j: nat | j < i ensures MatchAt(s, kw, j).None? {
      if MatchAt(s, kw, j).Some? {
        MatchExactly(s, kw, j, MatchAt(s, kw, j).value);
      }
    }
    SearchFirst(s, kw, i);
    Decimal.ReadIsValue(s[span.from..span.to]);
  }

  /** A statement's number is the one that stands first, at the value its digits have. */
  lemma FirstNumberExactly(s: string, kw: string, i: nat, span: Span)
    requires Keyword(kw) && Stands(s, kw, i, span)
    requires forall j: nat, other :: j < i ==> !Stands(s, kw, j, other)
    ensures FirstNumber(s, kw) == Some(Decimal.Value(s[span.from..span.to]))
  {
    hide Stands, Search;
    NumberIsStanding(s, kw, i, span);
  }

  /** A statement in which none stands has none. */
  lemma NoNumber(s: string, kw: string)
    requires Keyword(kw) && forall j: nat, other :: !Stands(s, kw, j, other)
    ensures FirstNumber(s, kw).None?
  {
    hide Stands, MatchAt, Search;
    forall j: nat | j < |s| ensures MatchAt(s, kw, j).None? {
      if MatchAt(s, kw, j).Some? {
        MatchExactly(s, kw, j, MatchAt(s, kw, j).value);
      }
    }
    SearchNothing(s, kw);
  }

  // ----- stripping ---------------------------------------------------------------------------------------

  predicate Semicolons(s: string) {
    forall i :: 0 <= i < |s| ==> s[i] == ';'
  }

  predicate EndsIn(s: string, ch: char) {
    s != "" && s[|s| - 1] == ch
  }

  predicate EndsInSpace(s: string) {
    s != "" && IsSpace(s[|s| - 1])
  }

  /** The text is core, spaces, semicolons, spaces, and no piece of the core belongs to them. */
  ghost predicate Trims(text: string, core: string, a: string, b: string, c: string) {
    text == core + (a + (b + c)) && AllSpace(a) && Semicolons(b) && AllSpace(c) && !EndsInSpace(core) &&
    (b == "" ==> a == "") && (a == "" ==> !EndsIn(core, ';'))
  }

  lemma {:induction false} SemicolonParts(s: string) returns (b: string)
    ensures s == StripSemicolons(s) + b && Semicolons(b) && !EndsIn(StripSemicolons(s), ';')
    decreases |s|
  {
    if s != "" && s[|s| - 1] == ';' {
      var front := SemicolonParts(s[..|s| - 1]);
      b := front + [';'];
      assert s == s[..|s| - 1] + [';'];
    } else {
      b := "";
    }
  }

  lemma {:induction false} SpaceParts(s: string) returns (c: string)
    ensures s == RightStrip(s) + c && AllSpace(c) && !EndsInSpace(RightStrip(s))
    decreases |s|
  {
    if s != "" && IsSpace(s[|s| - 1]) {
      var front := SpaceParts(s[..|s| - 1]);
      c := front + [s[|s| - 1]];
      assert s == s[..|s| - 1] + [s[|s| - 1]];
    } else {
      c := "";
    }
  }

  lemma {:induction false} LeadParts(s: string) returns (c: string)
    ensures s == c + LeftStrip(s) && AllSpace(c) && (LeftStrip(s) != "" ==> !IsSpace(LeftStrip(s)[0]))
    decreases |s|
  {
    if s != "" && IsSpace(s[0]) {
      var rest := LeadParts(s[1..]);
      c := [s[0]] + rest;
      assert s == [s[0]] + s[1..];
    } else {
      c := "";
    }
  }

  /** Of a statement rstrip, rstrip(";"), rstrip leave the core. */
  lemma LimitStrips(sql: string) returns (a: string, b: string, c: string)
    ensures Trims(sql, LimitStripped(sql), a, b, c)
  {
    c := SpaceParts(sql);
    b := SemicolonParts(RightStrip(sql));
    a := SpaceParts(StripSemicolons(RightStrip(sql)));
    hide RightStrip, StripSemicolons;
    var core := LimitStripped(sql);
    assert core + a + b + c == core + (a + (b + c));
    if a == "" {
      assert core + a == core;
    }
    if b == "" {
      assert StripSemicolons(RightStrip(sql)) + b == StripSemicolons(RightStrip(sql));
      NothingLeft(RightStrip(sql), core, a);
    }
  }

  lemma LastChar(core: string, a: string)
    requires a != ""
    ensures (core + a)[|core + a| - 1] == a[|a| - 1]
  {
  }

  lemma NothingLeft(t: string, core: string, a: string)
    requires t == core + a && AllSpace(a) && !EndsInSpace(t)
    ensures a == ""
  {
    if a != "" {
      LastChar(core, a);
    }
  }

  /** There is one such core. */
  lemma TrimsOnce(text: string, core: string, a: string, b: string, c: string, core': string, a': string,
      b': string, c': string)
    requires Trims(text, core, a, b, c) && Trims(text, core', a', b', c')
    ensures core == core'
  {
    var s, s' := core + (a + b), core' + (a' + b');
    assert text == s + c && text == s' + c';
    TailEnds(core, a, b);
    TailEnds(core', a', b');
    SpacesOnce(s, c, s', c');
    var t, t' := core + a, core' + a';
    assert s == t + b && s' == t' + b';
    assert !EndsIn(t, ';') by { SpacesEnd(core, a); }
    assert !EndsIn(t', ';') by { SpacesEnd(core', a'); }
    SemicolonsOnce(t, b, t', b');
    SpacesOnce(core, a, core', a');
  }

  lemma SpacesEnd(core: string, a: string)
    requires AllSpace(a) && (a == "" ==> !EndsIn(core, ';'))
    ensures !EndsIn(core + a, ';')
  {
    if a != "" {
      assert (core + a)[|core + a| - 1] == a[|a| - 1];
    } else {
      assert core + a == core;
    }
  }

  lemma TailEnds(core: string, a: string, b: string)
    requires AllSpace(a) && Semicolons(b) && !EndsInSpace(core) && (b == "" ==> a == "")
    ensures !EndsInSpace(core + (a + b))
  {
    if b != "" {
      assert (core + (a + b))[|core| + |a| + |b| - 1] == b[|b| - 1] == ';';
    } else {
      assert core + (a + b) == core;
    }
  }

  lemma LastInTail(s: string, c: string, s': string, c': string)
    requires s + c == s' + c' && |s| < |s'|
    ensures |s'| - 1 - |s| < |c| && c[|s'| - 1 - |s|] == s'[|s'| - 1]
  {
    assert (s' + c')[|s'| - 1] == (s + c)[|s'| - 1];
  }

  lemma SpacesOnce(s: string, c: string, s': string, c': string)
    requires s + c == s' + c' && AllSpace(c) && AllSpace(c') && !EndsInSpace(s) && !EndsInSpace(s')
    ensures s == s'
  {
    assert (s + c)[..|s|] == s && (s' + c')[..|s'|] == s';
    if |s| < |s'| {
      LastInTail(s, c, s', c');
    } else if |s'| < |s| {
      LastInTail(s', c', s, c);
    }
  }

  lemma SemicolonsOnce(s: string, c: string, s': string, c': string)
    requires s + c == s' + c' && Semicolons(c) && Semicolons(c') && !EndsIn(s, ';') && !EndsIn(s', ';')
    ensures s == s'
  {
    assert (s + c)[..|s|] == s && (s' + c')[..|s'|] == s';
    if |s| < |s'| {
      LastInTail(s, c, s', c');
    } else if |s'| < |s| {
      LastInTail(s', c', s, c);
    }
  }

  /** For SQL Server spaces in front are stripped as well. */
  lemma TopStrips(sql: string) returns (lead: string, a: string, b: string, c: string)
    ensures sql == lead + (TopStripped(sql) + (a + (b + c))) && AllSpace(lead)
    ensures Trims(TopStripped(sql) + (a + (b + c)), TopStripped(sql), a, b, c)
    ensures TopStripped(sql) != "" ==> !IsSpace(TopStripped(sql)[0])
  {
    lead := LeadParts(sql);
    var rest := LeftStrip(sql);
    a, b, c := LimitStrips(rest);
    TightInside(rest, a, b, c);
    hide LeftStrip, RightStrip, StripSemicolons;
  }

  /** What is left has no space in front, so stripping there again does nothing. */
  lemma TightInside(rest: string, a: string, b: string, c: string)
    requires (rest != "" ==> !IsSpace(rest[0])) && Trims(rest, LimitStripped(rest), a, b, c)
    ensures RightStrip(LeftStrip(StripSemicolons(RightStrip(rest)))) == LimitStripped(rest)
    ensures LimitStripped(rest) != "" ==> !IsSpace(LimitStripped(rest)[0])
  {
    var right := SpaceParts(rest);
    var semis := SemicolonParts(RightStrip(rest));
    var s := StripSemicolons(RightStrip(rest));
    assert s != "" ==> s[0] == rest[0];
    assert LeftStrip(s) == s;
  }

  // ----- a clause that was not there ------------------------------------------------------------------

  /** Right behind the keyword at the beginning of the statement goes the clause, and nothing else changes. */
  ghost predicate PutBehind(s: string, out: string, kw: string, clause: string) {
    |kw| <= |s| && SameText(s[..|kw|], kw) && out == s[..|kw|] + clause + s[|kw|..]
  }

  lemma BeginsByLetters(s: string, kw: string)
    requires forall k :: 0 <= k < |kw| ==> 'A' <= kw[k] <= 'Z' || kw[k] == ' '
    ensures StartsWith(s, kw) <==> |kw| <= |s| && SameText(s[..|kw|], kw)
  {
    hide Upper, SameLetter;
    if |kw| <= |s| {
      forall k | 0 <= k < |kw|
        ensures s[..|kw|][k] == s[0 + k] && (Upper(s[k]) == kw[k] <==> SameLetter(s[..|kw|][k], kw[k]))
      {
        UpperOrSpace(s[k], kw[k]);
      }
    }
  }

  lemma UpperOrSpace(a: char, k: char)
    requires 'A' <= k <= 'Z' || k == ' '
    ensures Upper(a) == k <==> SameLetter(a, k)
  {
  }

  /** The word LIMIT and a space stand somewhere. */
  ghost predicate MentionsLimit(s: string) {
    exists i: nat :: LimitStandsAt(s, i)
  }

  predicate LimitStandsAt(s: string, i: nat) {
    i + 6 <= |s| && SameText(s[i..i + 6], "LIMIT ")
  }

  lemma LimitByLetters(s: string)
    ensures HasLimit(s) <==> MentionsLimit(s)
  {
    hide KeywordAt, SameText;
    if i: nat :| i < |s| && KeywordAt(s, "LIMIT ", i) {
      SpotByLetters(s, i);
    }
    if i: nat :| LimitStandsAt(s, i) {
      SpotByLetters(s, i);
    }
  }

  lemma SpotByLetters(s: string, i: nat)
    ensures KeywordAt(s, "LIMIT ", i) <==> LimitStandsAt(s, i)
  {
    hide Upper, SameLetter;
    var kw := "LIMIT ";
    if i + 6 <= |s| {
      var t := s[i..i + 6];
      forall k | 0 <= k < 6 ensures t[k] == s[i + k] && (Upper(s[i + k]) == kw[k] <==> SameLetter(t[k], kw[k])) {
        UpperOrSpace(s[i + k], kw[k]);
      }
    }
  }

  /** A statement without a TOP number gets its clause right behind SELECT DISTINCT, or else behind SELECT; one that
      begins with neither becomes a subquery; and one that mentions LIMIT is left as it is. */
  lemma TopClausePlace(sql: string, n: nat)
    requires FirstNumber(TopStripped(sql), "TOP").None?
    ensures var s, out, clause := TopStripped(sql), InjectTop(sql, n), " TOP " + Decimal.Print(n);
      if MentionsLimit(s) then out == s
      else
        PutBehind(s, out, "SELECT DISTINCT", clause) ||
        (PutBehind(s, out, "SELECT", clause) && (|s| < 15 || !SameText(s[..15], "SELECT DISTINCT"))) ||
        ((|s| < 6 || !SameText(s[..6], "SELECT")) &&
         out == "SELECT TOP " + Decimal.Print(n) + " * FROM (" + s + ") AS _q")
  {
    var s := TopStripped(sql);
    LimitByLetters(s);
    BeginsByLetters(s, "SELECT DISTINCT");
    BeginsByLetters(s, "SELECT");
    hide Decimal.Print, TopStripped, Search, HasLimit, MentionsLimit, SameText, StartsWith;
    Regrouped(s, n);
  }

  lemma Regrouped(s: string, n: nat)
    ensures Wrapped(s, n) == "SELECT TOP " + Decimal.Print(n) + " * FROM (" + s + ") AS _q"
    ensures forall at :: 0 <= at <= |s| ==> WithTop(s, at, n) == s[..at] + (" TOP " + Decimal.Print(n)) + s[at..]
  {
    hide Decimal.Print;
  }

  lemma CappedPlace(s: string, span: Span, n: nat)
    requires SpanOk(s, span)
    ensures Capped(s, span, n) ==
      if Decimal.Value(s[span.from..span.to]) <= n then s else s[..span.from] + Decimal.Print(n) + s[span.to..]
  {
    Decimal.ReadIsValue(s[span.from..span.to]);
    hide Decimal.Print, Decimal.Value, Decimal.Read;
    assert s[..span.from] + (Decimal.Print(n) + s[span.to..]) == s[..span.from] + Decimal.Print(n) + s[span.to..];
  }

  lemma LimitFound(sql: string, n: nat, span: Span)
    requires Search(LimitStripped(sql), "LIMIT", 0) == Some(span)
    ensures InjectLimit(sql, n) == Capped(LimitStripped(sql), span, n)
  {
    hide LimitStripped, Search, Capped;
  }

  lemma TopFound(sql: string, n: nat, span: Span)
    requires Search(TopStripped(sql), "TOP", 0) == Some(span)
    ensures InjectTop(sql, n) == Capped(TopStripped(sql), span, n)
  {
    hide TopStripped, Search, HasLimit, InsertAt, WithTop, Wrapped, Capped;
  }

  /** A number that is there keeps its statement as it is when it is small enough, and is written over otherwise. */
  lemma TopNumberPlace(sql: string, n: nat, i: nat, span: Span)
    requires var s := TopStripped(sql);
      Stands(s, "TOP", i, span) && forall j: nat, other :: j < i ==> !Stands(s, "TOP", j, other)
    ensures var s := TopStripped(sql);
      InjectTop(sql, n) ==
        if Decimal.Value(s[span.from..span.to]) <= n then s else s[..span.from] + Decimal.Print(n) + s[span.to..]
  {
    var s := TopStripped(sql);
    NumberIsStanding(s, "TOP", i, span);
    TopFound(sql, n, span);
    hide TopStripped, Search, Stands, InjectTop, Capped, Decimal.Value;
    CappedPlace(s, span, n);
  }

  lemma LimitNumberPlace(sql: string, n: nat, i: nat, span: Span)
    requires var s := LimitStripped(sql);
      Stands(s, "LIMIT", i, span) && forall j: nat, other :: j < i ==> !Stands(s, "LIMIT", j, other)
    ensures var s := LimitStripped(sql);
      InjectLimit(sql, n) ==
        if Decimal.Value(s[span.from..span.to]) <= n then s else s[..span.from] + Decimal.Print(n) + s[span.to..]
  {
    var s := LimitStripped(sql);
    NumberIsStanding(s, "LIMIT", i, span);
    LimitFound(sql, n, span);
    hide LimitStripped, Search, Stands, InjectLimit, Capped, Decimal.Value;
    CappedPlace(s, span, n);
  }
}
