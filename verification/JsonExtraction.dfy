/** Where repair_json finds the document: the scanner counts one kind of bracket only, and
    still stops exactly at the end of the object or array it started at. */
module JsonExtraction {
  import opened Options
  import opened PyText
  import opened JsonText
  import opened JsonRepair

  function Plus(taken: Option<nat>, n: nat): Option<nat> {
    if taken.None? then None else Some(n + taken.value)
  }

  lemma {:induction false} ScanPlain(open: char, f: string, rest: string, depth: int)
    requires forall i :: 0 <= i < |f| ==> f[i] != '"' && f[i] != open && f[i] != CloseOf(open)
    ensures ScanText(open, f + rest, Scan(depth, false, false)) ==
      Plus(ScanText(open, rest, Scan(depth, false, false)), |f|)
    decreases |f|
  {
    if f == "" {
      assert f + rest == rest;
    } else {
      assert (f + rest)[1..] == f[1..] + rest;
      ScanPlain(open, f[1..], rest, depth);
    }
  }

  lemma ScanInside(open: char, ch: char, rest: string, st: Scan)
    requires st.inString || st.escapeNext
    ensures ScanText(open, [ch] + rest, st) == Plus(ScanText(open, rest, Next(open, st, ch)), 1)
  {
    assert ([ch] + rest)[1..] == rest;
  }

  /** Inside a string an escape of one character is passed over. */
  lemma ScanEscape(open: char, e: string, rest: string, depth: int)
    requires |e| == 2 && e[0] == '\\'
    ensures ScanText(open, e + rest, Scan(depth, true, false)) ==
      Plus(ScanText(open, rest, Scan(depth, true, false)), 2)
  {
    assert e + rest == [e[0]] + ([e[1]] + rest);
    hide ScanText;
    ScanInside(open, e[0], [e[1]] + rest, Scan(depth, true, false));
    ScanInside(open, e[1], rest, Scan(depth, true, true));
  }

  lemma {:induction false} ScanRaw(open: char, raw: string, rest: string, depth: int)
    requires RawOk(raw)
    ensures ScanText(open, raw + rest, Scan(depth, true, false)) ==
      Plus(ScanText(open, rest, Scan(depth, true, false)), |raw|)
    decreases |raw|
  {
    hide ScanText;
    if raw == "" {
      assert raw + rest == rest;
    } else if raw[0] == '\\' {
      var e, more := raw[..2], raw[2..];
      assert raw + rest == e + (more + rest);
      ScanEscape(open, e, more + rest, depth);
      if raw[1] == 'u' {
        assert more + rest == raw[2..6] + (raw[6..] + rest);
        ScanHex(open, raw[2..6], raw[6..] + rest, depth);
        ScanRaw(open, raw[6..], rest, depth);
      } else {
        ScanRaw(open, more, rest, depth);
      }
    } else {
      assert raw + rest == [raw[0]] + (raw[1..] + rest);
      ScanInside(open, raw[0], raw[1..] + rest, Scan(depth, true, false));
      ScanRaw(open, raw[1..], rest, depth);
    }
  }

  lemma {:induction false} ScanHex(open: char, f: string, rest: string, depth: int)
    requires forall i :: 0 <= i < |f| ==> IsHex(f[i])
    ensures ScanText(open, f + rest, Scan(depth, true, false)) ==
      Plus(ScanText(open, rest, Scan(depth, true, false)), |f|)
    decreases |f|
  {
    if f == "" {
      assert f + rest == rest;
    } else {
      assert f + rest == [f[0]] + (f[1..] + rest);
      ScanInside(open, f[0], f[1..] + rest, Scan(depth, true, false));
      ScanHex(open, f[1..], rest, depth);
    }
  }

  lemma ScanQuoted(open: char, raw: string, rest: string, depth: int)
    requires RawOk(raw) && (open == '{' || open == '[')
    ensures ScanText(open, Quoted(raw) + rest, Scan(depth, false, false)) ==
      Plus(ScanText(open, rest, Scan(depth, false, false)), |Quoted(raw)|)
  {
    var body := raw + ("\"" + rest);
    assert Quoted(raw) + rest == "\"" + body;
    assert ("\"" + body)[1..] == body;
    ScanRaw(open, raw, "\"" + rest, depth);
    assert ("\"" + rest)[1..] == rest;
  }

  lemma AtomPlain(text: string)
    requires AtomOk(text, true)
    ensures |text| > 0 && forall i :: 0 <= i < |text| ==>
      NumberChar(text[i]) || 'a' <= text[i] <= 'z' || 'A' <= text[i] <= 'Z'
  {
    if IsNumber(text) {
      NumberChars(text);
    }
  }

  lemma LabelText(lead: string, key: string, gap: string, rest: string)
    ensures (lead + key + gap + ":") + rest == lead + (key + ((gap + ":") + rest))
  {
  }

  lemma ScanLabel(open: char, tag: Option<Label>, rest: string, depth: int)
    requires (open == '{' || open == '[') && LabelOk(tag, tag.Some?)
    ensures ScanText(open, PrintLabel(tag) + rest, Scan(depth, false, false)) ==
      Plus(ScanText(open, rest, Scan(depth, false, false)), |PrintLabel(tag)|)
  {
    hide ScanText, RawOk, Quoted;
    if tag.Some? {
      var l := tag.value;
      LabelText(l.lead, Quoted(l.key), l.gap, rest);
      ScanThree(open, l.lead, l.key, l.gap + ":", rest, depth);
    } else {
      assert PrintLabel(tag) + rest == rest;
    }
  }

  lemma ScanThree(open: char, lead: string, key: string, colon: string, rest: string, depth: int)
    requires (open == '{' || open == '[') && RawOk(key)
    requires forall i :: 0 <= i < |lead| ==> lead[i] != '"' && lead[i] != open && lead[i] != CloseOf(open)
    requires forall i :: 0 <= i < |colon| ==> colon[i] != '"' && colon[i] != open && colon[i] != CloseOf(open)
    ensures ScanText(open, lead + (Quoted(key) + (colon + rest)), Scan(depth, false, false)) ==
      Plus(ScanText(open, rest, Scan(depth, false, false)), |lead| + |Quoted(key)| + |colon|)
  {
    hide ScanText, RawOk, Quoted;
    ScanPlain(open, lead, Quoted(key) + (colon + rest), depth);
    ScanQuoted(open, key, colon + rest, depth);
    ScanPlain(open, colon, rest, depth);
  }

  lemma ScanStep(open: char, ch: char, rest: string, st: Scan)
    requires !Stops(open, st, ch)
    ensures ScanText(open, [ch] + rest, st) == Plus(ScanText(open, rest, Next(open, st, ch)), 1)
  {
    assert ([ch] + rest)[1..] == rest;
  }

  function OpenChar(braced: bool): char {
    if braced then '{' else '['
  }

  function CloseChar(braced: bool): char {
    if braced then '}' else ']'
  }

  function Tail(d: Doc): string
    requires d.Node?
  {
    (if d.comma then "," else "") + d.gap
  }

  lemma Regroup(o: string, p: string, t: string, k: string, rest: string)
    ensures (o + p + (t + k)) + rest == o + (p + (t + (k + rest)))
  {
  }

  lemma NodeText(d: Doc, rest: string)
    requires d.Node?
    ensures Print(d) + rest ==
      [OpenChar(d.braced)] + (PrintParts(d.parts) + (Tail(d) + ([CloseChar(d.braced)] + rest)))
    ensures |Print(d)| == 2 + |PrintParts(d.parts)| + |Tail(d)|
  {
    assert Opener(d.braced) == [OpenChar(d.braced)] && Closer(d.braced) == [CloseChar(d.braced)];
    Regroup(Opener(d.braced), PrintParts(d.parts), Tail(d), Closer(d.braced), rest);
  }

  function Following(more: Parts, rest: string): string {
    if more.End? then rest else [','] + (PrintParts(more) + rest)
  }

  lemma RegroupPart(l: string, b: string, v: string, a: string, m: string, rest: string)
    ensures ((l + b) + v + (a + m)) + rest == l + (b + (v + (a + (m + rest))))
  {
  }

  lemma PartPrint(p: Parts, m: string)
    requires p.Part? && m == if p.rest.End? then "" else "," + PrintParts(p.rest)
    ensures PrintParts(p) == (PrintLabel(p.tag) + p.before) + Print(p.value) + (p.after + m)
  {
    hide Print, PrintLabel;
  }

  lemma FollowingText(more: Parts, m: string, rest: string)
    requires m == if more.End? then "" else "," + PrintParts(more)
    ensures m + rest == Following(more, rest)
  {
    hide PrintParts;
  }

  lemma PartText(p: Parts, rest: string)
    requires p.Part?
    ensures PrintParts(p) + rest ==
      PrintLabel(p.tag) + (p.before + (Print(p.value) + (p.after + Following(p.rest, rest))))
    ensures |PrintParts(p)| == |PrintLabel(p.tag)| + |p.before| + |Print(p.value)| + |p.after| +
      (if p.rest.End? then 0 else 1 + |PrintParts(p.rest)|)
  {
    hide Print, PrintLabel, PrintParts, Following;
    var m := if p.rest.End? then "" else "," + PrintParts(p.rest);
    PartPrint(p, m);
    FollowingText(p.rest, m, rest);
    RegroupPart(PrintLabel(p.tag), p.before, Print(p.value), p.after, m, rest);
  }

  ghost predicate ScansOver(open: char, text: string, rest: string, depth: int) {
    ScanText(open, text + rest, Scan(depth, false, false)) ==
    Plus(ScanText(open, rest, Scan(depth, false, false)), |text|)
  }

  /** One bracket pair: the suffixes of the text from the opener on are s0, s1, s2, s3 and rest. */
  lemma ScanPair(open: char, o: char, c: char, inside: string, tail: string, s0: string, s1: string, s2: string,
      s3: string, rest: string, depth: int, inner: int)
    requires s0 == [o] + s1 && s1 == inside + s2 && s2 == tail + s3 && s3 == [c] + rest
    requires !Stops(open, Scan(depth, false, false), o) &&
      Next(open, Scan(depth, false, false), o) == Scan(inner, false, false)
    requires !Stops(open, Scan(inner, false, false), c) &&
      Next(open, Scan(inner, false, false), c) == Scan(depth, false, false)
    requires forall i :: 0 <= i < |tail| ==> tail[i] != '"' && tail[i] != open && tail[i] != CloseOf(open)
    requires ScansOver(open, inside, s2, inner)
    ensures ScanText(open, s0, Scan(depth, false, false)) ==
      Plus(ScanText(open, rest, Scan(depth, false, false)), 2 + |inside| + |tail|)
  {
    ScanStep(open, o, s1, Scan(depth, false, false));
    ScanPlain(open, tail, s3, inner);
    ScanStep(open, c, rest, Scan(inner, false, false));
  }

  /** Four adjoining pieces, each scanned over in its place. */
  lemma ScanFour(open: char, t0: string, t1: string, t2: string, t3: string, s0: string, s1: string, s2: string,
      s3: string, rest: string, depth: int)
    requires s0 == t0 + s1 && s1 == t1 + s2 && s2 == t2 + s3 && s3 == t3 + rest
    requires ScansOver(open, t0, s1, depth) && ScansOver(open, t1, s2, depth)
    requires ScansOver(open, t2, s3, depth) && ScansOver(open, t3, rest, depth)
    ensures ScanText(open, s0, Scan(depth, false, false)) ==
      Plus(ScanText(open, rest, Scan(depth, false, false)), |t0| + |t1| + |t2| + |t3|)
  {
  }

  /** Inside the bracket, a whole document takes the scan from a depth back to that depth. */
  lemma {:induction false} ScanDoc(open: char, d: Doc, rest: string, depth: int)
    requires (open == '{' || open == '[') && depth >= 1 && DocOk(d, true)
    ensures ScansOver(open, Print(d), rest, depth)
    decreases d, 1
  {
    match d
    case Atom(text) =>
      AtomPlain(text);
      ScanPlain(open, text, rest, depth);
    case Str(raw) => ScanQuoted(open, raw, rest, depth);
    case Node(braced, parts, comma, gap) => ScanNode(open, d, rest, depth);
  }

  lemma TailPlain(d: Doc, open: char)
    requires (open == '{' || open == '[') && d.Node? && Blank(d.gap)
    ensures forall i :: 0 <= i < |Tail(d)| ==> Tail(d)[i] != '"' && Tail(d)[i] != open && Tail(d)[i] != CloseOf(open)
  {
  }

  /** The depth inside a bracket pair of either kind. */
  function DepthInside(open: char, braced: bool, depth: int): int {
    if OpenChar(braced) == open then depth + 1 else depth
  }

  lemma BracketsPass(open: char, braced: bool, depth: int)
    requires (open == '{' || open == '[') && depth >= 1
    ensures var inner, o, c := DepthInside(open, braced, depth), OpenChar(braced), CloseChar(braced);
      inner >= 1 &&
      !Stops(open, Scan(depth, false, false), o) && Next(open, Scan(depth, false, false), o) == Scan(inner, false, false) &&
      !Stops(open, Scan(inner, false, false), c) && Next(open, Scan(inner, false, false), c) == Scan(depth, false, false)
  {
  }

  lemma {:induction false} ScanNode(open: char, d: Doc, rest: string, depth: int)
    requires (open == '{' || open == '[') && depth >= 1 && DocOk(d, true) && d.Node?
    ensures ScansOver(open, Print(d), rest, depth)
    decreases d, 0
  {
    var inner := DepthInside(open, d.braced, depth);
    var s3 := [CloseChar(d.braced)] + rest;
    var s2 := Tail(d) + s3;
    NodeText(d, rest);
    TailPlain(d, open);
    BracketsPass(open, d.braced, depth);
    assert PartsOk(d.parts, d.braced, true);
    hide ScanText, Print, PrintParts, DocOk, PartsOk, Tail, DepthInside, OpenChar, CloseChar, Stops, Next;
    ScanParts(open, d.parts, d.braced, s2, inner);
    ScanPair(open, OpenChar(d.braced), CloseChar(d.braced), PrintParts(d.parts), Tail(d),
      Print(d) + rest, PrintParts(d.parts) + s2, s2, s3, rest, depth, inner);
  }

  lemma ScanFollowing(open: char, more: Parts, rest: string, depth: int)
    requires open == '{' || open == '['
    requires more.Part? ==> ScansOver(open, PrintParts(more), rest, depth)
    ensures ScanText(open, Following(more, rest), Scan(depth, false, false)) ==
      Plus(ScanText(open, rest, Scan(depth, false, false)), if more.End? then 0 else 1 + |PrintParts(more)|)
  {
    if more.Part? {
      ScanStep(open, ',', PrintParts(more) + rest, Scan(depth, false, false));
    }
  }

  lemma LayoutScans(open: char, layout: string, rest: string, depth: int)
    requires (open == '{' || open == '[') && Blank(layout)
    ensures ScansOver(open, layout, rest, depth)
  {
    ScanPlain(open, layout, rest, depth);
  }

  lemma LabelScans(open: char, tag: Option<Label>, rest: string, depth: int)
    requires (open == '{' || open == '[') && LabelOk(tag, tag.Some?)
    ensures ScansOver(open, PrintLabel(tag), rest, depth)
  {
    ScanLabel(open, tag, rest, depth);
  }

  lemma ScanPart(open: char, p: Parts, text: string, last: string, depth: int)
    requires p.Part? && (open == '{' || open == '[')
    requires LabelOk(p.tag, p.tag.Some?) && Blank(p.before) && Blank(p.after)
    requires text == PrintLabel(p.tag) + (p.before + (Print(p.value) + (p.after + last)))
    requires ScansOver(open, Print(p.value), p.after + last, depth)
    ensures ScanText(open, text, Scan(depth, false, false)) ==
      Plus(ScanText(open, last, Scan(depth, false, false)),
        |PrintLabel(p.tag)| + |p.before| + |Print(p.value)| + |p.after|)
  {
    hide *;
    var s3 := p.after + last;
    var s2 := Print(p.value) + s3;
    LabelScans(open, p.tag, p.before + s2, depth);
    LayoutScans(open, p.before, s2, depth);
    LayoutScans(open, p.after, last, depth);
    ScanFour(open, PrintLabel(p.tag), p.before, Print(p.value), p.after, text, p.before + s2, s2, s3, last, depth);
  }

  lemma Joined(open: char, text: string, front: nat, last: string, more: nat, rest: string, depth: int)
    requires ScanText(open, text + rest, Scan(depth, false, false)) ==
      Plus(ScanText(open, last, Scan(depth, false, false)), front)
    requires ScanText(open, last, Scan(depth, false, false)) ==
      Plus(ScanText(open, rest, Scan(depth, false, false)), more)
    requires |text| == front + more
    ensures ScansOver(open, text, rest, depth)
  {
    hide ScanText;
  }

  lemma PartScans(open: char, p: Parts, rest: string, depth: int)
    requires p.Part? && (open == '{' || open == '[')
    requires LabelOk(p.tag, p.tag.Some?) && Blank(p.before) && Blank(p.after)
    requires ScansOver(open, Print(p.value), p.after + Following(p.rest, rest), depth)
    requires p.rest.Part? ==> ScansOver(open, PrintParts(p.rest), rest, depth)
    ensures ScansOver(open, PrintParts(p), rest, depth)
  {
    hide *;
    var last := Following(p.rest, rest);
    PartText(p, rest);
    ScanPart(open, p, PrintParts(p) + rest, last, depth);
    ScanFollowing(open, p.rest, rest, depth);
    Joined(open, PrintParts(p), |PrintLabel(p.tag)| + |p.before| + |Print(p.value)| + |p.after|, last,
      if p.rest.End? then 0 else 1 + |PrintParts(p.rest)|, rest, depth);
  }

  lemma {:induction false} ScanParts(open: char, p: Parts, braced: bool, rest: string, depth: int)
    requires (open == '{' || open == '[') && depth >= 1 && PartsOk(p, braced, true)
    ensures ScansOver(open, PrintParts(p), rest, depth)
    decreases p, 0
  {
    if p.End? {
      assert PrintParts(p) + rest == rest;
    } else {
      ScanDoc(open, p.value, p.after + Following(p.rest, rest), depth);
      if p.rest.Part? {
        ScanParts(open, p.rest, braced, rest, depth);
      }
      PartScans(open, p, rest, depth);
    }
  }

  /** From its own opening bracket the scan takes exactly the document. */
  lemma ScanTop(d: Doc, rest: string)
    requires DocOk(d, true) && d.Node?
    ensures ScanText(OpenChar(d.braced), Print(d) + rest, Scan(0, false, false)) == Some(|Print(d)|)
  {
    var open := OpenChar(d.braced);
    var close := [CloseChar(d.braced)] + rest;
    NodeText(d, rest);
    ScanStep(open, open, PrintParts(d.parts) + (Tail(d) + close), Scan(0, false, false));
    ScanParts(open, d.parts, d.braced, Tail(d) + close, 1);
    ScanPlain(open, Tail(d), close, 1);
  }

  lemma NodeEnds(d: Doc)
    requires d.Node?
    ensures |Print(d)| >= 2 && Tight(Print(d)) && Print(d)[0] == OpenChar(d.braced)
    ensures Print(d)[|Print(d)| - 1] == CloseChar(d.braced)
  {
    assert |Opener(d.braced)| == 1 && |Closer(d.braced)| == 1;
  }

  lemma {:induction false} FirstBracketAfter(a: string, s: string)
    requires '{' !in a && '[' !in a && s != "" && (s[0] == '{' || s[0] == '[')
    ensures FirstBracket(a + s) == |a|
    decreases |a|
  {
    if a == "" {
      assert a + s == s;
    } else {
      assert (a + s)[0] == a[0];
      assert (a + s)[1..] == a[1..] + s;
      FirstBracketAfter(a[1..], s);
    }
  }

  lemma BracketedFinds(a: string, d: Doc, b: string)
    requires DocOk(d, true) && d.Node? && '{' !in a && '[' !in a
    ensures Bracketed(a + Print(d) + b) == Print(d)
  {
    hide ScanText, Strip, DocOk, Print;
    var s := a + Print(d) + b;
    NodeEnds(d);
    assert s == a + (Print(d) + b);
    FirstBracketAfter(a, Print(d) + b);
    assert s[|a|..] == Print(d) + b;
    ScanTop(d, b);
    assert s[|a|..|a| + |Print(d)|] == Print(d);
    StripTight(Print(d));
  }

  /** For every object or array, in any layout and even in the loose form, every preamble without
      an opening bracket and every trailer: what is extracted is exactly the document's text. */
  lemma ExtractFinds(pre: string, d: Doc, post: string)
    requires DocOk(d, true) && d.Node? && '{' !in pre && '[' !in pre
    requires FenceContent(Strip(pre + Print(d) + post)).None?
    ensures Extract(pre + Print(d) + post) == Print(d)
  {
    NodeEnds(d);
    var a, b := StripAround(pre, Print(d), post);
    assert '{' !in a && '[' !in a;
    BracketedFinds(a, d, b);
  }

  lemma StripIsPart(text: string) returns (i: nat, j: nat)
    ensures i <= j <= |text| && Strip(text) == text[i..j]
  {
    i := LeftStripSuffix(text);
    var k := RightStripPrefix(text[i..]);
    j := i + k;
    assert text[i..][..k] == text[i..j];
  }

  lemma SliceOfSlice(s: string, i: nat, j: nat, k: nat, m: nat)
    requires i <= j <= |s| && k <= m <= j - i
    ensures s[i..j][k..m] == s[i + k..i + m]
  {
    assert forall x :: 0 <= x < m - k ==> s[i..j][k..m][x] == s[i..j][k + x] == s[i + k..i + m][x];
  }

  lemma OccursInWhole(s: string, i: nat, j: nat, k: nat)
    requires i <= j <= |s| && OccursAt(s[i..j], FENCE, k)
    ensures OccursAt(s, FENCE, i + k)
  {
    assert |FENCE| == 3;
    SliceOfSlice(s, i, j, k, k + 3);
  }

  /** No fence stands behind another: there is none, or one that is never closed. */
  ghost predicate NoPair(s: string) {
    forall i: nat, j: nat :: OccursAt(s, FENCE, i) && OccursAt(s, FENCE, j) ==> j < i + 3
  }

  /** A fenced part is found exactly when some fence stands behind another. */
  lemma FenceNeedsPair(s: string)
    ensures FenceContent(s).Some? <==> !NoPair(s)
  {
    var first := Find(s, FENCE, 0);
    if first.Some? {
      var start := if OccursAt(s, "json", first.value + 3) then first.value + 7 else first.value + 3;
      var second := Find(s, FENCE, start);
      if second.None? {
        forall i: nat, j: nat | OccursAt(s, FENCE, i) && OccursAt(s, FENCE, j) ensures j < i + 3 {
          assert i >= first.value && j < start;
          if j >= first.value + 3 {
            TagIsNoFence(s, first.value + 3, j);
          }
        }
      } else {
        assert OccursAt(s, FENCE, first.value) && OccursAt(s, FENCE, second.value);
      }
    }
  }

  /** A fence does not begin within the tag. */
  lemma TagIsNoFence(s: string, k: nat, j: nat)
    requires OccursAt(s, "json", k) && k <= j < k + 4
    ensures !OccursAt(s, FENCE, j)
  {
    assert s[j] == s[k..k + 4][j - k];
    if OccursAt(s, FENCE, j) {
      FenceBegins(s, j);
    }
  }

  lemma FenceBegins(s: string, j: nat)
    requires OccursAt(s, FENCE, j)
    ensures s[j] == '`'
  {
    assert s[j..j + 3][0] == '`';
  }

  lemma NoPairInside(text: string)
    requires NoPair(text)
    ensures FenceContent(Strip(text)).None?
  {
    var i, j := StripIsPart(text);
    var s := Strip(text);
    forall k: nat, m: nat | OccursAt(s, FENCE, k) && OccursAt(s, FENCE, m) ensures m < k + 3 {
      OccursInWhole(text, i, j, k);
      OccursInWhole(text, i, j, m);
    }
    FenceNeedsPair(s);
  }

  /** Text without three backticks in a row holds no fence. */
  lemma NoBackticksNoFence(text: string)
    requires forall i: nat :: !OccursAt(text, FENCE, i)
    ensures FenceContent(Strip(text)).None?
  {
    NoPairInside(text);
  }

  /** The extraction theorem in its plain form: no fence is closed anywhere in the text, though one may be
      opened. */
  lemma ExtractionExact(pre: string, d: Doc, post: string)
    requires DocOk(d, true) && d.Node? && '{' !in pre && '[' !in pre
    requires NoPair(pre + Print(d) + post)
    ensures Extract(pre + Print(d) + post) == Print(d)
  {
    NoPairInside(pre + Print(d) + post);
    ExtractFinds(pre, d, post);
  }

  lemma {:induction false} LooseIsLooser(d: Doc)
    requires DocOk(d, false)
    ensures DocOk(d, true)
  {
    if d.Node? {
      LoosePartsLooser(d.parts, d.braced);
    }
  }

  lemma {:induction false} LoosePartsLooser(p: Parts, braced: bool)
    requires PartsOk(p, braced, false)
    ensures PartsOk(p, braced, true)
  {
    if p.Part? {
      LooseIsLooser(p.value);
      LoosePartsLooser(p.rest, braced);
    }
  }

  // ----- a fenced document ------------------------------------------------------------

  lemma NoneBefore(a: string, rest: string, i: nat)
    requires forall k: nat :: !OccursAt(a, FENCE, k)
    requires a == "" || a[|a| - 1] != '`'
    requires i < |a|
    ensures !OccursAt(a + rest, FENCE, i)
  {
    var s := a + rest;
    assert |FENCE| == 3 && FENCE[0] == FENCE[1] == FENCE[2] == '`';
    if i + 3 <= |a| {
      assert s[i..i + 3] == a[i..i + 3];
      assert !OccursAt(a, FENCE, i);
    } else if i + 3 <= |s| {
      assert s[i..i + 3][|a| - 1 - i] == a[|a| - 1];
    }
  }

  lemma FindsAfter(a: string, rest: string)
    requires forall k: nat :: !OccursAt(a, FENCE, k)
    requires a == "" || a[|a| - 1] != '`'
    ensures Find(a + FENCE + rest, FENCE, 0) == Some(|a|)
  {
    var s := a + FENCE + rest;
    assert s == a + (FENCE + rest);
    assert s[|a|..|a| + 3] == FENCE;
    assert OccursAt(s, FENCE, |a|);
    forall i | 0 <= i < |a| ensures !OccursAt(s, FENCE, i) {
      NoneBefore(a, FENCE + rest, i);
    }
  }

  lemma OccursShift(a: string, s: string, part: string, i: nat)
    ensures OccursAt(a + s, part, |a| + i) <==> OccursAt(s, part, i)
  {
    if i + |part| <= |s| {
      assert (a + s)[|a| + i..|a| + i + |part|] == s[i..i + |part|];
    }
  }

  lemma {:induction false} FindShift(a: string, s: string, part: string, i: nat)
    ensures Find(a + s, part, |a| + i) == Plus(Find(s, part, i), |a|)
    decreases |s| - i
  {
    OccursShift(a, s, part, i);
    hide OccursAt;
    if i + |part| <= |s| && !OccursAt(s, part, i) {
      FindShift(a, s, part, i + 1);
    }
  }

  lemma OpeningTag(head: string, tag: string, rest: string)
    requires tag == "json" || (tag == "" && rest != "" && rest[0] != 'j')
    ensures OccursAt(head + (tag + rest), "json", |head|) <==> tag == "json"
  {
    var s := head + (tag + rest);
    if tag == "json" {
      assert s[|head|..|head| + 4] == "json";
    } else {
      assert tag + rest == rest;
      if |head| + 4 <= |s| {
        assert s[|head|..|head| + 4][0] == rest[0];
        assert "json"[0] == 'j';
      }
    }
  }

  lemma MiddleSlice(a: string, b: string, f: string, c: string)
    ensures (a + (b + f + c))[|a|..|a| + |b|] == b
  {
  }

  lemma ClosingFence(lead: string, body: string, post: string, rest: string, s: string)
    requires forall k: nat :: !OccursAt(body, FENCE, k)
    requires body == "" || body[|body| - 1] != '`'
    requires rest == body + FENCE + post && s == lead + rest
    ensures Find(s, FENCE, |lead|) == Some(|lead| + |body|)
  {
    hide Find, OccursAt;
    FindsAfter(body, post);
    FindShift(lead, rest, FENCE, 0);
  }

  lemma FenceParts(s: string, first: nat, start: nat, second: nat)
    requires Find(s, FENCE, 0) == Some(first)
    requires start == first + 3 + if OccursAt(s, "json", first + 3) then 4 else 0
    requires Find(s, FENCE, start) == Some(second)
    ensures FenceContent(s) == Some(Strip(s[start..second]))
  {
    hide Find, OccursAt, Strip;
    assert |FENCE| == 3;
  }

  /** The fence expression on a preamble without fences, an optional tag and a body. */
  lemma FenceAround(pre: string, tag: string, body: string, post: string)
    requires forall k: nat :: !OccursAt(pre, FENCE, k) && !OccursAt(body, FENCE, k)
    requires pre == "" || pre[|pre| - 1] != '`'
    requires body != "" && body[0] != 'j' && body[|body| - 1] != '`'
    requires tag == "json" || tag == ""
    ensures FenceContent(pre + FENCE + (tag + (body + FENCE + post))) == Some(Strip(body))
  {
    hide Find, OccursAt, Strip, FenceContent;
    var rest := body + FENCE + post;
    var s := pre + FENCE + (tag + rest);
    FindsAfter(pre, tag + rest);
    assert rest[0] == body[0];
    OpeningTag(pre + FENCE, tag, rest);
    var lead := pre + FENCE + tag;
    assert s == lead + rest;
    ClosingFence(lead, body, post, rest, s);
    MiddleSlice(lead, body, FENCE, post);
    assert |FENCE| == 3 && |lead| == |pre| + 3 + |tag| && |"json"| == 4;
    FenceParts(s, |pre|, |lead|, |lead| + |body|);
  }

  lemma BodyHasNoFence(w1: string, core: string, w2: string)
    requires AllSpace(w1) && AllSpace(w2) && core != "" && core[|core| - 1] != '`'
    requires forall k: nat :: !OccursAt(core, FENCE, k)
    ensures var body := w1 + core + w2;
      body[|body| - 1] != '`' && forall k: nat :: !OccursAt(body, FENCE, k)
  {
    var body := w1 + core + w2;
    assert body[|body| - 1] == if w2 == "" then core[|core| - 1] else w2[|w2| - 1];
    assert |FENCE| == 3 && FENCE[0] == FENCE[1] == FENCE[2] == '`';
    forall k: nat ensures !OccursAt(body, FENCE, k) {
      if k + 3 <= |body| {
        var f := body[k..k + 3];
        if k < |w1| {
          assert f[0] == w1[k];
        } else if k + 3 <= |w1| + |core| {
          assert f == core[k - |w1|..k - |w1| + 3];
          assert !OccursAt(core, FENCE, k - |w1|);
        } else {
          assert f[2] == w2[k + 2 - |w1| - |core|];
        }
      }
    }
  }

  lemma SuffixHasNoFence(s: string, k: nat)
    requires k <= |s| && forall i: nat :: !OccursAt(s, FENCE, i)
    ensures forall i: nat :: !OccursAt(s[k..], FENCE, i)
  {
    assert s[k..|s|] == s[k..];
    forall i: nat ensures !OccursAt(s[k..], FENCE, i) {
      if OccursAt(s[k..], FENCE, i) {
        OccursInWhole(s, k, |s|, i);
      }
    }
  }

  lemma FencedRegroup(pre: string, tag: string, body: string, post: string)
    ensures pre + FENCE + (tag + (body + FENCE + post)) == pre + (FENCE + tag + body + FENCE) + post
    ensures Tight(FENCE + tag + body + FENCE) && |FENCE + tag + body + FENCE| > 0
  {
    var core := FENCE + tag + body + FENCE;
    assert core[0] == FENCE[0] == '`' && core[|core| - 1] == FENCE[2] == '`';
  }

  lemma StripBody(w1: string, core: string, w2: string)
    requires AllSpace(w1) && AllSpace(w2) && core != "" && Tight(core)
    ensures Strip(w1 + core + w2) == core
  {
    var a, b := StripAround(w1, core, w2);
  }

  /** A document inside a markdown fence, with or without the json tag, after any preamble and
      before any trailer, is extracted exactly. */
  lemma FencedExtraction(pre: string, tag: string, w1: string, d: Doc, w2: string, post: string)
    requires DocOk(d, true) && d.Node?
    requires forall k: nat :: !OccursAt(pre, FENCE, k) && !OccursAt(Print(d), FENCE, k)
    requires pre == "" || pre[|pre| - 1] != '`'
    requires (tag == "json" || tag == "") && AllSpace(w1) && AllSpace(w2)
    ensures Extract(pre + FENCE + (tag + ((w1 + Print(d) + w2) + FENCE + post))) == Print(d)
  {
    NodeEnds(d);
    FencedText(pre, tag, w1, Print(d), w2, post);
  }

  lemma FencedText(pre: string, tag: string, w1: string, text: string, w2: string, post: string)
    requires forall k: nat :: !OccursAt(pre, FENCE, k) && !OccursAt(text, FENCE, k)
    requires pre == "" || pre[|pre| - 1] != '`'
    requires (tag == "json" || tag == "") && AllSpace(w1) && AllSpace(w2)
    requires text != "" && Tight(text) && text[0] != 'j' && text[|text| - 1] != '`'
    ensures Extract(pre + FENCE + (tag + ((w1 + text + w2) + FENCE + post))) == text
  {
    var body := w1 + text + w2;
    FencedRegroup(pre, tag, body, post);
    var a, b := StripAround(pre, FENCE + tag + body + FENCE, post);
    FencedRegroup(a, tag, body, b);
    SuffixHasNoFence(pre, |pre| - |a|);
    BodyHasNoFence(w1, text, w2);
    assert body[0] == if w1 == "" then text[0] else w1[0];
    FenceAround(a, tag, body, b);
    StripBody(w1, text, w2);
  }

  /** The scanner does not look at what precedes the first bracket, so valid JSON that is one
      string holding a document is cut down to that document. */
  lemma BareStringIsCut(d: Doc)
    requires DocOk(d, false) && d.Node? && RawOk(Print(d))
    requires forall i: nat :: !OccursAt("\"" + Print(d) + "\"", FENCE, i)
    ensures DocOk(Str(Print(d)), false) && Extract(Print(Str(Print(d)))) == Print(d) != Print(Str(Print(d)))
  {
    LooseIsLooser(d);
    ExtractionExact("\"", d, "\"");
    assert |Print(Str(Print(d)))| == |Print(d)| + 2;
  }

  /** Something else than the whole text is taken out of it: what stands between two fences, or what
      the scan from the first bracket sees closed. */
  predicate TakesOut(s: string) {
    FenceContent(s).Some? ||
    (FirstBracketBound(s);
     var first := FirstBracket(s);
     first < |s| && ScanText(s[first], s[first..], Scan(0, false, false)).Some?)
  }

  lemma StripShortens(s: string)
    ensures |Strip(s)| <= |s|
  {
    var k := LeftStripSuffix(s);
    var n := RightStripPrefix(LeftStrip(s));
  }

  lemma FenceShortens(s: string)
    requires FenceContent(s).Some?
    ensures |FenceContent(s).value| < |s|
  {
    hide Strip, Find;
    var first := Find(s, FENCE, 0).value;
    var start := if OccursAt(s, "json", first + 3) then first + 7 else first + 3;
    StripShortens(s[start..Find(s, FENCE, start).value]);
  }

  /** A bare string literal is left whole exactly when it holds no two fences and no bracket that the
      scan sees closed. */
  lemma BareStringKeptExactly(raw: string)
    ensures Extract(Quoted(raw)) == Quoted(raw) <==> !TakesOut(Quoted(raw))
  {
    hide Strip, FenceContent, ScanText;
    var s := Quoted(raw);
    assert s[0] == '"' && s[|s| - 1] == '"';
    StripTight(s);
    FirstBracketBound(s);
    if FenceContent(s).Some? {
      FenceShortens(s);
    } else {
      var first := FirstBracket(s);
      if first < |s| {
        assert first > 0;
        ScanBound(s[first], s[first..], Scan(0, false, false));
        var taken := ScanText(s[first], s[first..], Scan(0, false, false));
        if taken.Some? {
          StripShortens(s[first..first + taken.value]);
        }
      }
    }
  }

  /** Such strings exist: "[]". */
  lemma BareBrackets()
    ensures var d := Node(false, End, false, "");
      DocOk(d, false) && RawOk(Print(d)) && Extract("\"[]\"") == "[]"
  {
    var d := Node(false, End, false, "");
    assert Print(d) == "[]";
    var s := "\"" + Print(d) + "\"";
    assert s == "\"[]\"";
    forall i: nat ensures !OccursAt(s, FENCE, i) {
      if i + 3 <= |s| {
        assert s[i..i + 3][0] == s[i];
      }
    }
    ExtractionExact("\"", d, "\"");
  }
}
