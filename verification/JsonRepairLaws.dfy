/** What repair_json makes of every document in the loose form: the strict text of the same
    value, except for what the two rewriting passes do inside its strings. */
module JsonRepairLaws {
  import opened Options
  import opened PyText
  import opened JsonText
  import opened JsonRepair
  import opened JsonExtraction
  import opened JsonWords
  import opened JsonCommas

  /** The repaired document: strict spelling, no trailing comma, strings as the passes leave them. */
  function Fixed(wide: char -> bool, d: Doc): Doc {
    match d
    case Atom(text) => Atom(Spelled(text))
    case Str(raw) => Str(FixText(wide, raw))
    case Node(braced, parts, comma, gap) => Node(braced, FixedParts(wide, parts), false, if comma then "" else gap)
  }

  function FixedLabel(wide: char -> bool, tag: Option<Label>): Option<Label> {
    if tag.None? then None else Some(Label(tag.value.lead, FixText(wide, tag.value.key), tag.value.gap))
  }

  function FixedParts(wide: char -> bool, p: Parts): Parts {
    match p
    case End => End
    case Part(tag, before, value, after, rest) =>
      Part(FixedLabel(wide, tag), before, Fixed(wide, value), after, FixedParts(wide, rest))
  }

  /** No string of the document holds a whole word True, False or None or a comma before a closer. */
  predicate Clean(wide: char -> bool, d: Doc) {
    match d
    case Atom(_) => true
    case Str(raw) => Plain(wide, raw)
    case Node(_, parts, _, _) => CleanParts(wide, parts)
  }

  predicate CleanParts(wide: char -> bool, p: Parts) {
    match p
    case End => true
    case Part(tag, _, value, _, rest) =>
      (tag.Some? ==> Plain(wide, tag.value.key)) && Clean(wide, value) && CleanParts(wide, rest)
  }

  // ----- pieces of a document ------------------------------------------------------------

  lemma PunctuationStays(wide: char -> bool, s: string)
    requires forall i :: 0 <= i < |s| ==> !Letter(s[i]) && s[i] != ','
    ensures FixText(wide, s) == s
  {
    forall i: nat | i < |s| ensures !WordOn(wide, s, i) {
      if WordOn(wide, s, i) {
        WordStart(wide, s, i);
      }
    }
    FixTextIdentity(wide, s);
  }

  lemma NotThere(wide: char -> bool, s: string, w: string, r: string)
    requires |w| > 0 && w[0] !in s
    ensures Replace(wide, s, w, r) == s
  {
    forall k: nat | k < |s| ensures !WordAt(wide, s, w, k) {
      if WordAt(wide, s, w, k) {
        Occurrence(s, w, k, 0);
      }
    }
    ReplaceNothing(wide, s, w, r, 0);
    assert s[0..] == s;
  }

  lemma WholeWord(wide: char -> bool, w: string, r: string)
    requires |w| > 0
    ensures Replace(wide, w, w, r) == r
  {
    assert w[0..|w|] == w && WordAt(wide, w, w, 0);
    ReplaceStep(wide, w, w, r, 0);
    ReplaceEnd(wide, w, w, r);
  }

  lemma PythonWord(wide: char -> bool, text: string)
    requires text in {"True", "False", "None"}
    ensures FixWords(wide, text) == Spelled(text)
  {
    hide Replace;
    WholeWord(wide, "True", "true");
    NotThere(wide, "true", "False", "false");
    NotThere(wide, "true", "None", "null");
    NotThere(wide, "False", "True", "true");
    WholeWord(wide, "False", "false");
    NotThere(wide, "false", "None", "null");
    NotThere(wide, "None", "True", "true");
    NotThere(wide, "None", "False", "false");
    WholeWord(wide, "None", "null");
  }

  lemma PythonFixed(wide: char -> bool, text: string)
    requires text in {"True", "False", "None"}
    ensures FixText(wide, text) == Spelled(text)
  {
    PythonWord(wide, text);
    hide FixWords, DropCommas;
    DropIdentity(Spelled(text));
  }

  lemma NumberIsPlain(wide: char -> bool, text: string)
    requires AtomOk(text, true) && text !in {"True", "False", "None"}
    ensures Plain(wide, text)
  {
    AtomPlain(text);
    if IsNumber(text) {
      NumberChars(text);
    }
    forall i: nat | i < |text| ensures !WordOn(wide, text, i) {
      if WordOn(wide, text, i) {
        WordStart(wide, text, i);
      }
    }
  }

  lemma AtomFixed(wide: char -> bool, text: string)
    requires AtomOk(text, true)
    ensures FixText(wide, text) == Spelled(text)
  {
    hide FixText, Plain, AtomOk;
    if text in {"True", "False", "None"} {
      PythonFixed(wide, text);
    } else {
      NumberIsPlain(wide, text);
      FixTextIdentity(wide, text);
    }
  }

  lemma QuotedFixed(wide: char -> bool, raw: string)
    ensures FixText(wide, Quoted(raw)) == Quoted(FixText(wide, raw))
  {
    hide FixText;
    var q := "\"";
    PunctuationStays(wide, q);
    FixTextSeam(wide, q, raw);
    FixTextSeam(wide, q + raw, q);
  }

  // ----- where texts begin and end ------------------------------------------------------

  lemma EndsSolid(s: string)
    requires s != "" && !IsSpace(s[|s| - 1]) && s[|s| - 1] != ','
    ensures !Hanging(s)
  {
    forall i | 0 <= i < |s| && s[i] == ',' ensures SkipSpace(s, i + 1) != |s| {
      SkipStops(s, i + 1, |s| - 1);
    }
  }

  lemma EndsBlank(s: string, gap: string)
    requires !Hanging(s) && Blank(gap)
    ensures !Hanging(s + gap)
  {
    forall i | 0 <= i < |s + gap| && (s + gap)[i] == ',' ensures SkipSpace(s + gap, i + 1) != |s + gap| {
      assert i < |s|;
      SkipLeft(s, gap, i + 1);
    }
  }

  lemma EndsLater(a: string, b: string)
    requires !Hanging(b) && Begins(b)
    ensures !Hanging(a + b)
  {
    forall i | 0 <= i < |a + b| && (a + b)[i] == ',' ensures SkipSpace(a + b, i + 1) != |a + b| {
      if i < |a| {
        SkipLeft(a, b, i + 1);
      } else {
        SkipRight(a, b, i - |a| + 1);
        assert b[i - |a|] == ',';
      }
    }
  }

  lemma BeginsAfter(gap: string, s: string)
    requires Blank(gap) && s != "" && !IsSpace(s[0]) && !IsCloser(s[0])
    ensures Begins(gap + s)
  {
    SkipAll(gap, 0);
    SkipLeft(gap, s, 0);
  }

  lemma BlankNotHanging(gap: string)
    requires Blank(gap)
    ensures !Hanging(gap)
  {
  }

  /** First and last character of a printed value. */
  lemma DocEnds(d: Doc)
    requires DocOk(d, true)
    ensures var s := Print(d); s != "" && !IsSpace(s[0]) && !IsCloser(s[0]) && !IsSpace(s[|s| - 1]) && s[|s| - 1] != ','
  {
    match d
    case Atom(text) => AtomPlain(text);
    case Str(_) =>
    case Node(_, _, _, _) => NodeEnds(d);
  }

  lemma LabelBegins(tag: Option<Label>, before: string, rest: string)
    requires LabelOk(tag, tag.Some?) && Blank(before)
    requires rest != "" && !IsSpace(rest[0]) && !IsCloser(rest[0])
    ensures Begins(PrintLabel(tag) + (before + rest))
  {
    if tag.Some? {
      var l := tag.value;
      var more := Quoted(l.key) + (l.gap + (":" + (before + rest)));
      assert PrintLabel(tag) + (before + rest) == l.lead + more;
      BeginsAfter(l.lead, more);
    } else {
      assert PrintLabel(tag) + (before + rest) == before + rest;
      BeginsAfter(before, rest);
    }
  }

  lemma PartsBegin(p: Parts)
    requires p.Part? && LabelOk(p.tag, p.tag.Some?) && Blank(p.before) && DocOk(p.value, true)
    ensures Begins(PrintParts(p))
  {
    hide SkipSpace;
    DocEnds(p.value);
    var rest := Print(p.value) + (p.after + Following(p.rest, ""));
    LabelBegins(p.tag, p.before, rest);
    PartText(p, "");
    assert PrintParts(p) + "" == PrintParts(p);
  }

  lemma PartsEndText(p: Parts, solid: string)
    requires p.Part? && solid == (PrintLabel(p.tag) + p.before) + Print(p.value)
    ensures PrintParts(p) == if p.rest.End? then solid + p.after else (solid + p.after + ",") + PrintParts(p.rest)
  {
    hide PrintLabel, Print;
    if p.rest.Part? {
      assert solid + (p.after + ("," + PrintParts(p.rest))) == (solid + p.after + ",") + PrintParts(p.rest);
    }
  }

  lemma LastChar(a: string, b: string)
    requires b != ""
    ensures (a + b)[|a + b| - 1] == b[|b| - 1]
  {
  }

  lemma {:induction false} PartsEnd(p: Parts, braced: bool)
    requires p.Part? && PartsOk(p, braced, true)
    ensures !Hanging(PrintParts(p))
  {
    hide Hanging, Begins, PrintParts, PrintLabel, Print, DocOk, RawOk;
    DocEnds(p.value);
    var front := PrintLabel(p.tag) + p.before;
    var solid := front + Print(p.value);
    PartsEndText(p, solid);
    if p.rest.End? {
      LastChar(front, Print(p.value));
      EndsSolid(solid);
      EndsBlank(solid, p.after);
    } else {
      PartsBegin(p.rest);
      PartsEnd(p.rest, braced);
      EndsLater(solid + p.after + ",", PrintParts(p.rest));
    }
  }

  // ----- the passes on a document -----------------------------------------------------------

  /** A piece that no word or comma runs out of. */
  predicate Closed(wide: char -> bool, a: string) {
    (a == "" || !WordChar(wide, a[|a| - 1])) && !Hanging(a)
  }

  lemma ClosedSeam(wide: char -> bool, a: string, b: string)
    requires Closed(wide, a)
    ensures FixText(wide, a + b) == FixText(wide, a) + FixText(wide, b)
  {
    FixTextSeam(wide, a, b);
  }

  lemma BlankClosed(wide: char -> bool, gap: string)
    requires Blank(gap)
    ensures Closed(wide, gap) && FixText(wide, gap) == gap
  {
    BlankNotHanging(gap);
    PunctuationStays(wide, gap);
  }

  lemma QuotedClosed(wide: char -> bool, raw: string)
    ensures Closed(wide, Quoted(raw)) && FixText(wide, Quoted(raw)) == Quoted(FixText(wide, raw))
  {
    EndsSolid(Quoted(raw));
    QuotedFixed(wide, raw);
  }

  lemma RegroupLabel(lead: string, key: string, gap: string, rest: string)
    ensures (lead + key + gap + ":") + rest == lead + (key + (gap + (":" + rest)))
  {
  }

  lemma LabelFixed(wide: char -> bool, tag: Option<Label>, rest: string)
    requires LabelOk(tag, tag.Some?)
    ensures FixText(wide, PrintLabel(tag) + rest) == PrintLabel(FixedLabel(wide, tag)) + FixText(wide, rest)
  {
    hide FixText, Closed;
    if tag.Some? {
      var l := tag.value;
      RegroupLabel(l.lead, Quoted(l.key), l.gap, rest);
      RegroupLabel(l.lead, Quoted(FixText(wide, l.key)), l.gap, FixText(wide, rest));
      KeyFixed(wide, l, rest);
    } else {
      assert PrintLabel(tag) + rest == rest;
    }
  }

  lemma KeyFixed(wide: char -> bool, l: Label, rest: string)
    requires Blank(l.lead) && Blank(l.gap)
    ensures FixText(wide, l.lead + (Quoted(l.key) + (l.gap + (":" + rest)))) ==
      l.lead + (Quoted(FixText(wide, l.key)) + (l.gap + (":" + FixText(wide, rest))))
  {
    hide *;
    BlankClosed(wide, l.lead);
    ClosedSeam(wide, l.lead, Quoted(l.key) + (l.gap + (":" + rest)));
    QuotedClosed(wide, l.key);
    ClosedSeam(wide, Quoted(l.key), l.gap + (":" + rest));
    BlankClosed(wide, l.gap);
    ClosedSeam(wide, l.gap, ":" + rest);
    ColonClosed(wide);
    ClosedSeam(wide, ":", rest);
  }

  lemma ColonClosed(wide: char -> bool)
    ensures Closed(wide, ":") && FixText(wide, ":") == ":"
  {
    EndsSolid(":");
    PunctuationStays(wide, ":");
  }

  /** A value and what follows it: layout, a comma, or the closing bracket. */
  lemma ValueSeam(wide: char -> bool, d: Doc, b: string)
    requires DocOk(d, true) && (b == "" || !WordChar(wide, b[0]))
    ensures FixText(wide, Print(d) + b) == FixText(wide, Print(d)) + FixText(wide, b)
  {
    DocEnds(d);
    EndsSolid(Print(d));
    FixTextSeam(wide, Print(d), b);
  }

  lemma CommaSeam(wide: char -> bool, b: string)
    requires Begins(b)
    ensures FixText(wide, "," + b) == "," + FixText(wide, b)
  {
    FixTextSeam(wide, ",", b);
    assert !WordOn(wide, ",", 0) by {
      if WordOn(wide, ",", 0) {
        WordStart(wide, ",", 0);
      }
    }
    FixTextIdentity(wide, ",");
  }

  /** One element, given what the passes do to its value and to the elements after it. */
  lemma PartFixed(wide: char -> bool, p: Parts, value: string, more: string)
    requires p.Part? && LabelOk(p.tag, p.tag.Some?) && Blank(p.before) && Blank(p.after) && DocOk(p.value, true)
    requires FixText(wide, Print(p.value)) == value && FixText(wide, Following(p.rest, "")) == more
    ensures FixText(wide, PrintParts(p)) ==
      PrintLabel(FixedLabel(wide, p.tag)) + (p.before + (value + (p.after + more)))
  {
    hide FixText, Closed, WordChar;
    var s3 := Following(p.rest, "");
    var s2 := p.after + s3;
    var s1 := Print(p.value) + s2;
    PartText(p, "");
    assert PrintParts(p) + "" == PrintParts(p);
    LabelFixed(wide, p.tag, p.before + s1);
    BlankClosed(wide, p.before);
    ClosedSeam(wide, p.before, s1);
    AfterHead(wide, p.after, p.rest);
    ValueSeam(wide, p.value, s2);
    BlankClosed(wide, p.after);
    ClosedSeam(wide, p.after, s3);
  }

  lemma AfterHead(wide: char -> bool, after: string, more: Parts)
    requires Blank(after)
    ensures var s := after + Following(more, ""); s == "" || !WordChar(wide, s[0])
  {
  }

  lemma {:induction false} PartsFixed(wide: char -> bool, p: Parts, braced: bool)
    requires PartsOk(p, braced, true)
    ensures FixText(wide, PrintParts(p)) == PrintParts(FixedParts(wide, p))
    decreases p, 0
  {
    if p.End? {
      PunctuationStays(wide, "");
    } else {
      DocFixed(wide, p.value);
      if p.rest.Part? {
        PartsFixed(wide, p.rest, braced);
        PartsBegin(p.rest);
      }
      FollowingFixed(wide, p.rest);
      PartFixed(wide, p, Print(Fixed(wide, p.value)), Following(FixedParts(wide, p.rest), ""));
      FixedPartText(wide, p);
    }
  }

  lemma FollowingFixed(wide: char -> bool, more: Parts)
    requires more.Part? ==> Begins(PrintParts(more)) && FixText(wide, PrintParts(more)) == PrintParts(FixedParts(wide, more))
    ensures FixText(wide, Following(more, "")) == Following(FixedParts(wide, more), "")
  {
    hide FixText, Begins;
    if more.Part? {
      CommaSeam(wide, PrintParts(more));
      assert PrintParts(more) + "" == PrintParts(more);
      assert FixedParts(wide, more).Part?;
      assert PrintParts(FixedParts(wide, more)) + "" == PrintParts(FixedParts(wide, more));
    } else {
      PunctuationStays(wide, "");
    }
  }

  lemma FixedPartText(wide: char -> bool, p: Parts)
    requires p.Part?
    ensures PrintParts(FixedParts(wide, p)) == PrintLabel(FixedLabel(wide, p.tag)) +
      (p.before + (Print(Fixed(wide, p.value)) + (p.after + Following(FixedParts(wide, p.rest), ""))))
  {
    hide Print, PrintLabel, FixText;
    var q := FixedParts(wide, p);
    PartText(q, "");
    assert PrintParts(q) + "" == PrintParts(q);
  }

  lemma TailFixed(wide: char -> bool, d: Doc)
    requires d.Node? && Blank(d.gap)
    ensures FixText(wide, Tail(d) + [CloseChar(d.braced)]) == Tail(Fixed(wide, d)) + [CloseChar(d.braced)]
  {
    hide FixText;
    var close := [CloseChar(d.braced)];
    if d.comma {
      TrailingDropped(wide, d.gap, close[0]);
      assert Tail(d) + close == "," + (d.gap + close);
      assert Tail(Fixed(wide, d)) + close == close;
    } else {
      PunctuationStays(wide, d.gap + close);
      assert Tail(d) == d.gap && Tail(Fixed(wide, d)) == d.gap;
    }
  }

  lemma TrailingDropped(wide: char -> bool, gap: string, close: char)
    requires Blank(gap) && IsCloser(close)
    ensures FixText(wide, "," + (gap + [close])) == [close]
  {
    var s := "," + (gap + [close]);
    forall i: nat | i < |s| ensures !WordOn(wide, s, i) {
      if WordOn(wide, s, i) {
        WordStart(wide, s, i);
      }
    }
    FixWordsNothing(wide, s);
    SkipRight(",", gap + [close], 0);
    SkipAll(gap, 0);
    SkipLeft(gap, [close], 0);
    assert SkipSpace([close], 0) == 0;
    DropStep(s, 0);
    DropEnd(s);
  }

  lemma TailHead(wide: char -> bool, d: Doc)
    requires d.Node? && Blank(d.gap)
    ensures !WordChar(wide, (Tail(d) + [CloseChar(d.braced)])[0])
  {
  }

  lemma NodeFixed(wide: char -> bool, d: Doc)
    requires d.Node? && DocOk(d, true)
    requires FixText(wide, PrintParts(d.parts)) == PrintParts(FixedParts(wide, d.parts))
    requires !Hanging(PrintParts(d.parts))
    ensures FixText(wide, Print(d)) == Print(Fixed(wide, d))
  {
    hide FixText, Hanging, WordChar;
    var open, close := [OpenChar(d.braced)], [CloseChar(d.braced)];
    var tail := Tail(d) + close;
    var inside := PrintParts(d.parts);
    NodeText(d, "");
    assert Print(d) + "" == Print(d) && close + "" == close;
    OpenerClosed(wide, d.braced);
    ClosedSeam(wide, open, inside + tail);
    TailHead(wide, d);
    InsideSeam(wide, inside, tail);
    TailFixed(wide, d);
    var f := Fixed(wide, d);
    NodeText(f, "");
    assert Print(f) + "" == Print(f);
  }

  lemma OpenerClosed(wide: char -> bool, braced: bool)
    ensures Closed(wide, [OpenChar(braced)]) && FixText(wide, [OpenChar(braced)]) == [OpenChar(braced)]
  {
    EndsSolid([OpenChar(braced)]);
    PunctuationStays(wide, [OpenChar(braced)]);
  }

  lemma InsideSeam(wide: char -> bool, inside: string, tail: string)
    requires !Hanging(inside) && (tail == "" || !WordChar(wide, tail[0]))
    ensures FixText(wide, inside + tail) == FixText(wide, inside) + FixText(wide, tail)
  {
    FixTextSeam(wide, inside, tail);
  }

  /** The two rewriting passes turn the text of every loose document into the text of its
      repaired document. */
  lemma {:induction false} DocFixed(wide: char -> bool, d: Doc)
    requires DocOk(d, true)
    ensures FixText(wide, Print(d)) == Print(Fixed(wide, d))
    decreases d, 1
  {
    match d
    case Atom(text) => AtomFixed(wide, text);
    case Str(raw) => QuotedFixed(wide, raw);
    case Node(braced, parts, comma, gap) =>
      PartsFixed(wide, parts, braced);
      if parts.Part? {
        PartsEnd(parts, braced);
      }
      NodeFixed(wide, d);
  }
}
