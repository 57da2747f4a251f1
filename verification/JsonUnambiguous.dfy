/** A strict JSON text has one value, whichever way its layout is cut: so a parser exists that gives
    every strict text the value it denotes, as json.loads does. */
module JsonUnambiguous {
  import opened Options
  import opened JsonText
  import opened JsonExtraction
  import opened JsonRepairExact

  // ----- where a token ends ----------------------------------------------------------------------

  lemma SameSplit(a: string, b: string, a': string, b': string)
    requires a + b == a' + b' && |a| == |a'|
    ensures a == a' && b == b'
  {
    assert (a + b)[..|a|] == a && (a + b)[|a|..] == b;
    assert (a' + b')[..|a|] == a' && (a' + b')[|a|..] == b';
  }

  /** The text goes on with a visible character. */
  predicate Visible(s: string) {
    s != "" && !IsBlank(s[0])
  }

  lemma BlankShorter(b: string, s: string, b': string, s': string)
    requires b + s == b' + s' && Blank(b') && Visible(s)
    ensures |b'| <= |b|
  {
    var t, t' := b + s, b' + s';
    assert t[|b|] == s[0];
    assert forall i :: 0 <= i < |b'| ==> IsBlank(t'[i]);
  }

  lemma BlankSplit(b: string, s: string, b': string, s': string)
    requires b + s == b' + s' && Blank(b) && Blank(b') && Visible(s) && Visible(s')
    ensures b == b' && s == s'
  {
    BlankShorter(b, s, b', s');
    BlankShorter(b', s', b, s);
    SameSplit(b, s, b', s');
  }

  predicate AtomChar(ch: char) {
    NumberChar(ch) || 'a' <= ch <= 'z' || 'A' <= ch <= 'Z'
  }

  predicate Delimits(s: string) {
    s != "" ==> !AtomChar(s[0])
  }

  lemma AtomShorter(t: string, x: string, t': string, x': string)
    requires t + x == t' + x' && (forall i :: 0 <= i < |t'| ==> AtomChar(t'[i])) && Delimits(x)
    ensures |t'| <= |t|
  {
    var s, s' := t + x, t' + x';
    assert x != "" ==> s[|t|] == x[0];
    assert forall i :: 0 <= i < |t'| ==> AtomChar(s'[i]);
  }

  lemma AtomSplit(t: string, x: string, t': string, x': string)
    requires t + x == t' + x' && AtomOk(t, true) && AtomOk(t', true) && Delimits(x) && Delimits(x')
    ensures t == t' && x == x'
  {
    hide AtomOk;
    AtomPlain(t);
    AtomPlain(t');
    AtomShorter(t, x, t', x');
    AtomShorter(t', x', t, x);
    SameSplit(t, x, t', x');
  }

  /** Two string bodies up to their closing quotes. */
  lemma {:induction false} RawSplit(r: string, x: string, r': string, x': string)
    requires RawOk(r) && RawOk(r') && r + ("\"" + x) == r' + ("\"" + x')
    ensures r == r' && x == x'
    decreases |r|
  {
    var s, s' := r + ("\"" + x), r' + ("\"" + x');
    if r == "" || r' == "" {
      RawEnds(r, x, r', x');
    } else {
      assert s[0] == r[0] && s'[0] == r'[0];
      var n := RawStep(r);
      SecondChar(r, x, r', x');
      RawRest(r, n, x);
      RawRest(r', n, x');
      SameSplit(r[..n], r[n..] + ("\"" + x), r'[..n], r'[n..] + ("\"" + x'));
      RawSplit(r[n..], x, r'[n..], x');
      assert r == r[..n] + r[n..] && r' == r'[..n] + r'[n..];
    }
  }

  lemma RawEnds(r: string, x: string, r': string, x': string)
    requires RawOk(r) && RawOk(r') && r + ("\"" + x) == r' + ("\"" + x') && (r == "" || r' == "")
    ensures r == r' && x == x'
  {
    var s, s' := r + ("\"" + x), r' + ("\"" + x');
    assert s[0] == (r + "\"")[0] && s'[0] == (r' + "\"")[0];
    assert s[1..] == (r + "\"" + x)[1..] && s'[1..] == (r' + "\"" + x')[1..];
  }

  /** How many characters the first one of a string body takes. */
  function RawStep(r: string): (n: nat)
    requires RawOk(r) && r != ""
    ensures 0 < n <= |r|
  {
    if r[0] == '\\' then if r[1] == 'u' then 6 else 2 else 1
  }

  lemma SecondChar(r: string, x: string, r': string, x': string)
    requires RawOk(r) && RawOk(r') && r != "" && r' != "" && r + ("\"" + x) == r' + ("\"" + x')
    ensures RawStep(r) == RawStep(r')
  {
    var s, s' := r + ("\"" + x), r' + ("\"" + x');
    assert s[0] == r[0] && s'[0] == r'[0];
    assert |r| > 1 ==> s[1] == r[1];
    assert |r'| > 1 ==> s'[1] == r'[1];
  }

  lemma RawRest(r: string, n: nat, x: string)
    requires n <= |r|
    ensures r + ("\"" + x) == r[..n] + (r[n..] + ("\"" + x))
  {
  }

  lemma QuotedSplit(r: string, x: string, r': string, x': string)
    requires RawOk(r) && RawOk(r') && Quoted(r) + x == Quoted(r') + x'
    ensures r == r' && x == x'
  {
    assert Quoted(r) + x == "\"" + (r + ("\"" + x));
    assert Quoted(r') + x' == "\"" + (r' + ("\"" + x'));
    SameSplit("\"", r + ("\"" + x), "\"", r' + ("\"" + x'));
    RawSplit(r, x, r', x');
  }

  // ----- documents ---------------------------------------------------------------------------------

  /** How the text of a document begins. */
  lemma Begins(d: Doc, x: string)
    requires DocOk(d, true)
    ensures var s := Print(d) + x;
      s != "" &&
      match d
      case Atom(_) => AtomChar(s[0])
      case Str(_) => s[0] == '"'
      case Node(braced, _, _, _) => s[0] == OpenChar(braced)
  {
    match d
    case Atom(text) => AtomPlain(text);
    case Str(raw) =>
    case Node(_, _, _, _) => NodeText(d, x);
  }

  /** What follows the elements: blanks, the closing bracket, anything. */
  function Closing(braced: bool, gap: string, x: string): string {
    gap + ([CloseChar(braced)] + x)
  }

  lemma ClosingSplit(braced: bool, b: string, x: string, b': string, x': string)
    requires Blank(b) && Blank(b') && Closing(braced, b, x) == Closing(braced, b', x')
    ensures x == x'
  {
    BlankSplit(b, [CloseChar(braced)] + x, b', [CloseChar(braced)] + x');
    SameSplit([CloseChar(braced)], x, [CloseChar(braced)], x');
  }

  lemma LabelText(tag: Option<Label>, r: string)
    requires tag.Some?
    ensures PrintLabel(tag) + r == tag.value.lead + (Quoted(tag.value.key) + (tag.value.gap + (":" + r)))
  {
    var l := tag.value;
    assert PrintLabel(tag) + r == l.lead + Quoted(l.key) + l.gap + ":" + r;
  }

  lemma LabelSplit(braced: bool, tag: Option<Label>, r: string, tag': Option<Label>, r': string)
    requires LabelOk(tag, braced) && LabelOk(tag', braced) && PrintLabel(tag) + r == PrintLabel(tag') + r'
    ensures r == r' && (braced ==> tag.value.key == tag'.value.key)
  {
    hide RawOk;
    if braced {
      var l, l' := tag.value, tag'.value;
      hide PrintLabel, Quoted;
      LabelText(tag, r);
      LabelText(tag', r');
      var s, s' := l.gap + (":" + r), l'.gap + (":" + r');
      QuotedVisible(l.key, s);
      QuotedVisible(l'.key, s');
      BlankSplit(l.lead, Quoted(l.key) + s, l'.lead, Quoted(l'.key) + s');
      QuotedSplit(l.key, s, l'.key, s');
      BlankSplit(l.gap, ":" + r, l'.gap, ":" + r');
      SameSplit(":", r, ":", r');
    } else {
      assert PrintLabel(tag) + r == r && PrintLabel(tag') + r' == r';
    }
  }

  lemma QuotedVisible(key: string, s: string)
    ensures Visible(Quoted(key) + s) && (Quoted(key) + s)[0] == '"'
  {
  }

  lemma ValueVisible(d: Doc, x: string, braced: bool)
    requires DocOk(d, true)
    ensures Visible(Print(d) + x) && (Print(d) + x)[0] != CloseChar(braced)
  {
    hide DocOk, Print;
    Begins(d, x);
  }

  /** Elements begin with blanks and then something other than the closing bracket. */
  lemma PartBegins(p: Parts, t: string, braced: bool) returns (b: string, s: string)
    requires p.Part? && PartsOk(p, braced, true)
    ensures PrintParts(p) + t == b + s && Blank(b) && Visible(s) && s[0] != CloseChar(braced)
  {
    hide RawOk, DocOk, PrintParts, Print, PrintLabel;
    var f := p.after + Following(p.rest, t);
    var r := p.before + (Print(p.value) + f);
    PartText(p, t);
    if braced {
      var l := p.tag.value;
      LabelText(p.tag, r);
      QuotedVisible(l.key, l.gap + (":" + r));
      b, s := l.lead, Quoted(l.key) + (l.gap + (":" + r));
    } else {
      ValueVisible(p.value, f, braced);
      assert PrintLabel(p.tag) + r == r by {
        NoLabel(p.tag, r);
      }
      b, s := p.before, Print(p.value) + f;
    }
  }

  lemma NoLabel(tag: Option<Label>, r: string)
    requires tag.None?
    ensures PrintLabel(tag) + r == r
  {
  }

  /** After a value: blanks, then a comma and more, or the closing bracket. */
  lemma FollowsText(after: string, more: Parts, braced: bool, gap: string, x: string)
    ensures after + Following(more, Closing(braced, gap, x)) ==
      if more.End? then Closing(braced, after + gap, x)
      else after + ([','] + (PrintParts(more) + Closing(braced, gap, x)))
  {
  }

  lemma FollowsDelimits(after: string, more: Parts, braced: bool, gap: string, x: string)
    requires Blank(after) && Blank(gap)
    ensures Delimits(after + Following(more, Closing(braced, gap, x)))
  {
    hide PrintParts;
    FollowsText(after, more, braced, gap, x);
    if more.End? {
      assert (after + gap + [CloseChar(braced)] + x)[0] ==
        if after + gap == "" then CloseChar(braced) else (after + gap)[0];
    }
  }

  lemma FollowsSplit(after: string, more: Parts, gap: string, x: string,
                     after': string, more': Parts, gap': string, x': string, braced: bool)
    requires Blank(after) && Blank(gap) && Blank(after') && Blank(gap')
    requires after + Following(more, Closing(braced, gap, x)) == after' + Following(more', Closing(braced, gap', x'))
    ensures more.End? <==> more'.End?
    ensures if more.End? then x == x'
            else PrintParts(more) + Closing(braced, gap, x) == PrintParts(more') + Closing(braced, gap', x')
  {
    hide PrintParts, Following;
    FollowsText(after, more, braced, gap, x);
    FollowsText(after', more', braced, gap', x');
    var t, t' := PrintParts(more) + Closing(braced, gap, x), PrintParts(more') + Closing(braced, gap', x');
    var c, c' := [CloseChar(braced)] + x, [CloseChar(braced)] + x';
    if more.End? && more'.End? {
      ClosingSplit(braced, after + gap, x, after' + gap', x');
    } else if more.End? {
      BlankSplit(after + gap, c, after', [','] + t');
    } else if more'.End? {
      BlankSplit(after, [','] + t, after' + gap', c');
    } else {
      BlankSplit(after, [','] + t, after', [','] + t');
      SameSplit([','], t, [','], t');
    }
  }

  lemma NodeParts(d: Doc, x: string, e: Doc, y: string)
    requires d.Node? && e.Node? && d.braced == e.braced && !d.comma && !e.comma && Print(d) + x == Print(e) + y
    ensures PrintParts(d.parts) + Closing(d.braced, d.gap, x) == PrintParts(e.parts) + Closing(d.braced, e.gap, y)
  {
    hide Print, PrintParts;
    NodeText(d, x);
    NodeText(e, y);
    assert Tail(d) == d.gap && Tail(e) == e.gap;
    SameSplit([OpenChar(d.braced)], PrintParts(d.parts) + Closing(d.braced, d.gap, x),
      [OpenChar(d.braced)], PrintParts(e.parts) + Closing(d.braced, e.gap, y));
  }

  lemma SameKind(d: Doc, x: string, e: Doc, y: string)
    requires DocOk(d, true) && DocOk(e, true) && Print(d) + x == Print(e) + y
    ensures d.Atom? == e.Atom? && d.Str? == e.Str? && (d.Node? ==> d.braced == e.braced)
  {
    hide DocOk, Print;
    Begins(d, x);
    Begins(e, y);
  }

  /** Two strict documents that begin one text have one value, and leave the same rest. */
  lemma {:induction false} SameValue(d: Doc, x: string, e: Doc, y: string)
    requires DocOk(d, false) && DocOk(e, false) && Print(d) + x == Print(e) + y && Delimits(x) && Delimits(y)
    ensures ValueOf(d) == ValueOf(e) && x == y
    decreases d, 1
  {
    hide RawOk, PartsOk, PrintParts, AtomOk, ValuesOf;
    LooseIsLooser(d);
    LooseIsLooser(e);
    SameKind(d, x, e, y);
    match d
    case Atom(text) => AtomSplit(text, x, e.text, y);
    case Str(raw) => QuotedSplit(raw, x, e.raw, y);
    case Node(braced, parts, _, gap) =>
      NodeParts(d, x, e, y);
      SameValues(parts, gap, x, e.parts, e.gap, y, braced);
  }

  lemma {:induction false} SameValues(p: Parts, gap: string, x: string, q: Parts, gap': string, y: string, braced: bool)
    requires PartsOk(p, braced, false) && PartsOk(q, braced, false) && Blank(gap) && Blank(gap')
    requires PrintParts(p) + Closing(braced, gap, x) == PrintParts(q) + Closing(braced, gap', y)
    ensures ValuesOf(p) == ValuesOf(q) && x == y
    decreases p, 0
  {
    hide RawOk, DocOk, PrintParts, Print, PrintLabel, Closing;
    if p.Part? && q.Part? {
      var t, u := Closing(braced, gap, x), Closing(braced, gap', y);
      var f, f' := p.after + Following(p.rest, t), q.after + Following(q.rest, u);
      PartText(p, t);
      PartText(q, u);
      LabelSplit(braced, p.tag, p.before + (Print(p.value) + f), q.tag, q.before + (Print(q.value) + f'));
      LooseIsLooser(p.value);
      LooseIsLooser(q.value);
      ValueVisible(p.value, f, braced);
      ValueVisible(q.value, f', braced);
      BlankSplit(p.before, Print(p.value) + f, q.before, Print(q.value) + f');
      FollowsDelimits(p.after, p.rest, braced, gap, x);
      FollowsDelimits(q.after, q.rest, braced, gap', y);
      SameValue(p.value, f, q.value, f');
      FollowsSplit(p.after, p.rest, gap, x, q.after, q.rest, gap', y, braced);
      if p.rest.Part? {
        SameValues(p.rest, gap, x, q.rest, gap', y, braced);
      }
    } else {
      EndsTogether(p, gap, x, q, gap', y, braced);
    }
  }

  lemma EndsTogether(p: Parts, gap: string, x: string, q: Parts, gap': string, y: string, braced: bool)
    requires PartsOk(p, braced, false) && PartsOk(q, braced, false) && Blank(gap) && Blank(gap') && (p.End? || q.End?)
    requires PrintParts(p) + Closing(braced, gap, x) == PrintParts(q) + Closing(braced, gap', y)
    ensures p.End? && q.End? && x == y
  {
    hide PartsOk;
    var c, c' := [CloseChar(braced)] + x, [CloseChar(braced)] + y;
    assert p.End? ==> PrintParts(p) + Closing(braced, gap, x) == Closing(braced, gap, x);
    assert q.End? ==> PrintParts(q) + Closing(braced, gap', y) == Closing(braced, gap', y);
    if p.End? && q.End? {
      ClosingSplit(braced, gap, x, gap', y);
    } else if p.End? {
      LoosePartsLooser(q, braced);
      var b, s := PartBegins(q, Closing(braced, gap', y), braced);
      BlankSplit(gap, c, b, s);
    } else {
      LoosePartsLooser(p, braced);
      var b, s := PartBegins(p, Closing(braced, gap, x), braced);
      BlankSplit(b, s, gap', c');
    }
  }

  /** The text of a strict document determines the value it denotes. */
  lemma TextTellsValue(d: Doc, e: Doc)
    requires DocOk(d, false) && DocOk(e, false) && Print(d) == Print(e)
    ensures ValueOf(d) == ValueOf(e)
  {
    hide DocOk, Print, ValueOf;
    assert Print(d) + "" == Print(e) + "";
    SameValue(d, "", e, "");
  }

  ghost predicate IsStrict(text: string) {
    exists d :: DocOk(d, false) && Print(d) == text
  }

  /** The value of a strict text. */
  ghost function Load(text: string): Option<Value> {
    if IsStrict(text) then
      var d :| DocOk(d, false) && Print(d) == text;
      Some(ValueOf(d))
    else None
  }

  /** So there is a parser that is right on strict texts, and it accepts nothing else. */
  lemma LoadParses()
    ensures Parses(s => Load(s)) && forall text :: Load(text).Some? <==> IsStrict(text)
  {
    forall d | DocOk(d, false) ensures Load(Print(d)) == Some(ValueOf(d)) {
      assert IsStrict(Print(d));
      var e :| DocOk(e, false) && Print(e) == Print(d) && Load(Print(d)) == Some(ValueOf(e));
      TextTellsValue(d, e);
    }
  }
}
