/** When repair_json gives back the value a document was written for: exactly when none of its
    strings holds one of the three words or a comma before a closing bracket. */
module JsonRepairExact {
  import opened Options
  import opened PyText
  import opened JsonText
  import opened JsonRepair
  import opened JsonExtraction
  import opened JsonWords
  import opened JsonCommas
  import opened JsonRepairLaws

  // ----- the passes keep string literals well formed ---------------------------------------

  predicate Bare(ch: char) {
    ch != '"' && ch != '\\' && ch >= ' '
  }

  lemma {:induction false} RawBare(f: string, x: string)
    requires forall k :: 0 <= k < |f| ==> Bare(f[k])
    ensures RawOk(f + x) <==> RawOk(x)
  {
    if f == "" {
      assert f + x == x;
    } else {
      assert (f + x)[0] == f[0] && (f + x)[1..] == f[1..] + x;
      RawBare(f[1..], x);
    }
  }

  /** An escape sequence: two characters, or six for a code unit in hexadecimal. */
  predicate Escape(e: string) {
    |e| >= 2 && e[0] == '\\' &&
    (if e[1] == 'u' then |e| == 6 && IsHex(e[2]) && IsHex(e[3]) && IsHex(e[4]) && IsHex(e[5])
     else |e| == 2 && e[1] in "\"\\/bfnrt")
  }

  lemma RawEscape(e: string, x: string)
    requires Escape(e)
    ensures RawOk(e + x) <==> RawOk(x)
  {
    var s := e + x;
    assert s[0] == e[0] && s[1] == e[1] && s[|e|..] == x;
    if e[1] == 'u' {
      assert s[2] == e[2] && s[3] == e[3] && s[4] == e[4] && s[5] == e[5];
    }
  }

  /** How the text from i on starts: an escape sequence or one bare character. */
  function Lead(s: string, i: nat): (n: nat)
    requires i < |s| && RawOk(s[i..])
    ensures 0 < n <= |s| - i
    ensures if n == 1 then Bare(s[i]) else Escape(s[i..i + n])
  {
    var t := s[i..];
    assert t[0] == s[i];
    if s[i] == '\\' then (if s[i + 1] == 'u' then 6 else 2) else 1
  }

  lemma LeadRest(s: string, i: nat)
    requires i < |s| && RawOk(s[i..])
    ensures RawOk(s[i + Lead(s, i)..])
  {
    var n := Lead(s, i);
    assert s[i..] == s[i..i + n] + s[i + n..];
    if n == 1 {
      RawBare(s[i..i + 1], s[i + 1..]);
    } else {
      RawEscape(s[i..i + n], s[i + n..]);
    }
  }

  lemma RawLead(s: string, i: nat, x: string)
    requires i < |s| && RawOk(s[i..]) && RawOk(x)
    ensures RawOk(s[i..i + Lead(s, i)] + x)
  {
    hide RawOk;
    var n := Lead(s, i);
    if n == 1 {
      RawBare(s[i..i + 1], x);
    } else {
      RawEscape(s[i..i + n], x);
    }
  }

  lemma {:induction false} ReplaceCopies(wide: char -> bool, s: string, w: string, r: string, i: nat, n: nat)
    requires |w| > 0 && i + n <= |s| && forall k: nat :: i <= k < i + n ==> !WordAt(wide, s, w, k)
    ensures ReplaceFrom(wide, s, w, r, i) == s[i..i + n] + ReplaceFrom(wide, s, w, r, i + n)
    decreases n
  {
    hide WordAt, ReplaceFrom;
    if n > 0 {
      ReplaceStep(wide, s, w, r, i);
      ReplaceCopies(wide, s, w, r, i + 1, n - 1);
      assert s[i..i + n] == [s[i]] + s[i + 1..i + n];
    } else {
      assert s[i..i] == "";
    }
  }

  predicate Capital(w: string) {
    Word(w) && (w[0] == 'T' || w[0] == 'F' || w[0] == 'N')
  }

  lemma NoWordInEscape(wide: char -> bool, s: string, w: string, i: nat, n: nat, k: nat)
    requires Capital(w) && i + n <= |s| && Escape(s[i..i + n]) && i <= k < i + n
    ensures !WordAt(wide, s, w, k)
  {
    var e := s[i..i + n];
    assert s[i] == e[0] && s[i + 1] == e[1];
    assert s[k] == e[k - i] && (k > i ==> s[k - 1] == e[k - 1 - i]);
    if WordAt(wide, s, w, k) {
      Occurrence(s, w, k, 0);
    }
  }

  lemma {:induction false} RawReplace(wide: char -> bool, s: string, w: string, r: string, i: nat)
    requires i <= |s| && RawOk(s[i..]) && Capital(w) && Word(r)
    ensures RawOk(ReplaceFrom(wide, s, w, r, i))
    decreases |s| - i
  {
    hide ReplaceFrom, WordAt, RawOk;
    if i == |s| {
      ReplaceEnd(wide, s, w, r);
      assert s[i..] == "";
    } else if WordAt(wide, s, w, i) {
      RawMatch(wide, s, w, i);
      ReplaceStep(wide, s, w, r, i);
      RawReplace(wide, s, w, r, i + |w|);
      RawBare(r, ReplaceFrom(wide, s, w, r, i + |w|));
    } else {
      var n := Lead(s, i);
      LeadRest(s, i);
      if n > 1 {
        forall k: nat | i <= k < i + n ensures !WordAt(wide, s, w, k) {
          NoWordInEscape(wide, s, w, i, n, k);
        }
      }
      ReplaceCopies(wide, s, w, r, i, n);
      RawReplace(wide, s, w, r, i + n);
      RawLead(s, i, ReplaceFrom(wide, s, w, r, i + n));
    }
  }

  lemma RawMatch(wide: char -> bool, s: string, w: string, i: nat)
    requires i <= |s| && RawOk(s[i..]) && Word(w) && WordAt(wide, s, w, i)
    ensures i + |w| <= |s| && RawOk(s[i + |w|..])
  {
    assert s[i..] == w + s[i + |w|..];
    RawBare(w, s[i + |w|..]);
  }

  lemma RawWords(wide: char -> bool, raw: string)
    requires RawOk(raw)
    ensures RawOk(FixWords(wide, raw))
  {
    hide RawOk;
    var s1 := Replace(wide, raw, "True", "true");
    var s2 := Replace(wide, s1, "False", "false");
    assert raw[0..] == raw && s1[0..] == s1 && s2[0..] == s2;
    RawReplace(wide, raw, "True", "true", 0);
    RawReplace(wide, s1, "False", "false", 0);
    RawReplace(wide, s2, "None", "null", 0);
  }

  lemma {:induction false} DropCopies(s: string, i: nat, n: nat)
    requires i + n <= |s| && forall k: nat :: i <= k < i + n ==> !CommaAt(s, k)
    ensures DropFrom(s, i) == s[i..i + n] + DropFrom(s, i + n)
    decreases n
  {
    hide CommaAt, DropFrom;
    if n > 0 {
      DropStep(s, i);
      DropCopies(s, i + 1, n - 1);
      assert s[i..i + n] == [s[i]] + s[i + 1..i + n];
    } else {
      assert s[i..i] == "";
    }
  }

  lemma {:induction false} RawSkip(s: string, i: nat)
    requires i <= |s| && RawOk(s[i..])
    ensures RawOk(s[SkipSpace(s, i)..])
    decreases |s| - i
  {
    if i < |s| && IsSpace(s[i]) {
      LeadRest(s, i);
      assert s[i..i + Lead(s, i)][0] == s[i];
      RawSkip(s, i + 1);
    }
  }

  lemma BareRest(s: string, i: nat)
    requires i < |s| && RawOk(s[i..]) && s[i] != '\\'
    ensures Bare(s[i]) && RawOk(s[i + 1..])
  {
    LeadRest(s, i);
    hide RawOk;
    assert s[i..i + Lead(s, i)][0] == s[i];
  }

  lemma RawComma(s: string, i: nat)
    requires i < |s| && RawOk(s[i..]) && CommaAt(s, i)
    ensures RawOk(s[Past(s, i)..]) && Bare(Kept(s, i)[0])
  {
    hide RawOk, SkipSpace;
    BareRest(s, i);
    RawSkip(s, i + 1);
    BareRest(s, SkipSpace(s, i + 1));
  }

  lemma NoCommaInEscape(s: string, i: nat, n: nat, k: nat)
    requires i + n <= |s| && Escape(s[i..i + n]) && i <= k < i + n
    ensures !CommaAt(s, k)
  {
    var e := s[i..i + n];
    assert s[k] == e[k - i];
  }

  lemma {:induction false} RawDrop(s: string, i: nat)
    requires i <= |s| && RawOk(s[i..])
    ensures RawOk(DropFrom(s, i))
    decreases |s| - i
  {
    hide DropFrom, CommaAt, RawOk, SkipSpace;
    if i == |s| {
      DropEnd(s);
      assert s[i..] == "";
    } else if CommaAt(s, i) {
      RawComma(s, i);
      DropStep(s, i);
      RawDrop(s, Past(s, i));
      RawBare(Kept(s, i), DropFrom(s, Past(s, i)));
    } else {
      var n := Lead(s, i);
      LeadRest(s, i);
      if n > 1 {
        forall k: nat | i <= k < i + n ensures !CommaAt(s, k) {
          NoCommaInEscape(s, i, n, k);
        }
      }
      DropCopies(s, i, n);
      RawDrop(s, i + n);
      RawLead(s, i, DropFrom(s, i + n));
    }
  }

  /** The passes never break a string literal. */
  lemma RawFixed(wide: char -> bool, raw: string)
    requires RawOk(raw)
    ensures RawOk(FixText(wide, raw))
  {
    hide FixWords, RawOk;
    RawWords(wide, raw);
    var s := FixWords(wide, raw);
    assert s[0..] == s;
    RawDrop(s, 0);
  }

  lemma {:induction false} FixedOk(wide: char -> bool, d: Doc)
    requires DocOk(d, true)
    ensures DocOk(Fixed(wide, d), false)
    decreases d, 1
  {
    hide FixText;
    match d
    case Atom(text) => NumberNotWord(text);
    case Str(raw) => RawFixed(wide, raw);
    case Node(braced, parts, _, _) => FixedPartsOk(wide, parts, braced);
  }

  lemma {:induction false} FixedPartsOk(wide: char -> bool, p: Parts, braced: bool)
    requires PartsOk(p, braced, true)
    ensures PartsOk(FixedParts(wide, p), braced, false)
    decreases p, 0
  {
    hide FixText;
    if p.Part? {
      if p.tag.Some? {
        RawFixed(wide, p.tag.value.key);
      }
      FixedOk(wide, p.value);
      FixedPartsOk(wide, p.rest, braced);
    }
  }

  // ----- the value survives exactly when the strings are clean --------------------------------

  lemma {:induction false} FixedValue(wide: char -> bool, d: Doc)
    requires DocOk(d, true)
    ensures ValueOf(Fixed(wide, d)) == ValueOf(d) <==> Clean(wide, d)
    decreases d, 1
  {
    hide FixText, Plain;
    match d
    case Atom(text) => NumberNotWord(text);
    case Str(raw) => FixTextIdentity(wide, raw);
    case Node(braced, parts, _, _) => FixedValues(wide, parts, braced);
  }

  lemma {:induction false} FixedValues(wide: char -> bool, p: Parts, braced: bool)
    requires PartsOk(p, braced, true)
    ensures ValuesOf(FixedParts(wide, p)) == ValuesOf(p) <==> CleanParts(wide, p)
    decreases p, 0
  {
    hide FixText, Plain;
    if p.Part? {
      if p.tag.Some? {
        FixTextIdentity(wide, p.tag.value.key);
      }
      FixedValue(wide, p.value);
      FixedValues(wide, p.rest, braced);
    }
  }

  /** A parser that gives every strict text the value it denotes. */
  ghost predicate Parses(loads: string -> Option<Value>) {
    forall d :: DocOk(d, false) ==> loads(Print(d)) == Some(ValueOf(d))
  }

  /** For every object or array in the loose form, after any preamble without an opening bracket
      and before any trailer, the result is strict JSON, and it denotes the value that was written
      exactly when the strings are clean. */
  lemma RepairRecovers(loads: string -> Option<Value>, wide: char -> bool, pre: string, d: Doc, post: string)
    requires Parses(loads) && DocOk(d, true) && d.Node? && '{' !in pre && '[' !in pre
    requires NoPair(pre + Print(d) + post)
    ensures var s := RepairJson(loads, wide, pre + Print(d) + post);
      s == Print(Fixed(wide, d)) && (loads(s) == Some(ValueOf(d)) <==> Clean(wide, d))
  {
    hide FixText, Extract;
    ExtractionExact(pre, d, post);
    RepairedValue(loads, wide, d);
  }

  /** The same for a document inside a markdown fence. */
  lemma FencedRepairRecovers(loads: string -> Option<Value>, wide: char -> bool, pre: string, tag: string, w1: string,
      d: Doc, w2: string, post: string)
    requires Parses(loads) && DocOk(d, true) && d.Node?
    requires forall k: nat :: !OccursAt(pre, FENCE, k) && !OccursAt(Print(d), FENCE, k)
    requires pre == "" || pre[|pre| - 1] != '`'
    requires (tag == "json" || tag == "") && AllSpace(w1) && AllSpace(w2)
    ensures var s := RepairJson(loads, wide, pre + FENCE + (tag + ((w1 + Print(d) + w2) + FENCE + post)));
      s == Print(Fixed(wide, d)) && (loads(s) == Some(ValueOf(d)) <==> Clean(wide, d))
  {
    hide FixText, Extract;
    FencedExtraction(pre, tag, w1, d, w2, post);
    RepairedValue(loads, wide, d);
  }

  lemma RepairedValue(loads: string -> Option<Value>, wide: char -> bool, d: Doc)
    requires Parses(loads) && DocOk(d, true)
    ensures FixText(wide, Print(d)) == Print(Fixed(wide, d)) && loads(Print(Fixed(wide, d))).Some?
    ensures loads(Print(Fixed(wide, d))) == Some(ValueOf(d)) <==> Clean(wide, d)
  {
    hide FixText;
    DocFixed(wide, d);
    FixedOk(wide, d);
    FixedValue(wide, d);
  }

  // ----- valid JSON is left alone exactly when it is clean ----------------------------------------

  lemma {:induction false} FixedLength(wide: char -> bool, d: Doc)
    requires DocOk(d, false)
    ensures |Print(Fixed(wide, d))| <= |Print(d)|
    ensures Clean(wide, d) ==> Fixed(wide, d) == d
    decreases d, 1
  {
    hide FixText, Plain;
    match d
    case Atom(text) => NumberNotWord(text);
    case Str(raw) => FixTextIdentity(wide, raw);
    case Node(braced, parts, _, _) =>
      FixedPartsLength(wide, parts, braced);
      NodeText(d, "");
      NodeText(Fixed(wide, d), "");
  }

  lemma {:induction false} FixedPartsLength(wide: char -> bool, p: Parts, braced: bool)
    requires PartsOk(p, braced, false)
    ensures |PrintParts(FixedParts(wide, p))| <= |PrintParts(p)|
    ensures CleanParts(wide, p) ==> FixedParts(wide, p) == p
    decreases p, 0
  {
    hide FixText, Plain, Print;
    if p.Part? {
      FixedLabelLength(wide, p.tag);
      FixedLength(wide, p.value);
      FixedPartsLength(wide, p.rest, braced);
      PartText(p, "");
      PartText(FixedParts(wide, p), "");
    }
  }

  lemma FixedLabelLength(wide: char -> bool, tag: Option<Label>)
    ensures |PrintLabel(FixedLabel(wide, tag))| <= |PrintLabel(tag)|
    ensures (tag.Some? ==> Plain(wide, tag.value.key)) ==> FixedLabel(wide, tag) == tag
  {
    hide FixText, Plain;
    if tag.Some? {
      FixTextIdentity(wide, tag.value.key);
    }
  }

  lemma SplitSame(a: string, b: string, a': string, b': string)
    requires a + b == a' + b' && |a| == |a'|
    ensures a == a' && b == b'
  {
    assert (a + b)[..|a|] == a && (a + b)[|a|..] == b;
    assert (a' + b')[..|a|] == a' && (a' + b')[|a|..] == b';
  }

  lemma SplitFour(l: string, m: string, v: string, f: string, l': string, v': string, f': string)
    requires l + (m + (v + f)) == l' + (m + (v' + f')) && |l'| <= |l| && |v'| <= |v| && |f'| <= |f|
    ensures l == l' && v == v' && f == f'
  {
    SplitSame(l, m + (v + f), l', m + (v' + f'));
    SplitSame(m, v + f, m, v' + f');
    SplitSame(v, f, v', f');
  }

  lemma {:induction false} SameText(wide: char -> bool, d: Doc)
    requires DocOk(d, false) && Print(Fixed(wide, d)) == Print(d)
    ensures Fixed(wide, d) == d
    decreases d, 1
  {
    hide FixText, Plain;
    match d
    case Atom(text) => NumberNotWord(text);
    case Str(raw) =>
      var fixed := FixText(wide, raw);
      assert Quoted(fixed)[1..|fixed| + 1] == fixed && Quoted(raw)[1..|raw| + 1] == raw;
    case Node(braced, parts, _, _) =>
      NodeSame(wide, d);
      SameParts(wide, parts, braced);
  }

  lemma NodeSame(wide: char -> bool, d: Doc)
    requires d.Node? && !d.comma && Print(Fixed(wide, d)) == Print(d)
    ensures PrintParts(FixedParts(wide, d.parts)) == PrintParts(d.parts)
  {
    hide Print, PrintParts, FixText;
    var f := Fixed(wide, d);
    var end := Tail(d) + ([CloseChar(d.braced)] + "");
    NodeText(d, "");
    NodeText(f, "");
    assert Tail(f) == Tail(d);
    SplitSame([OpenChar(d.braced)], PrintParts(d.parts) + end, [OpenChar(d.braced)], PrintParts(f.parts) + end);
    SplitSame(PrintParts(d.parts), end, PrintParts(f.parts), end);
  }

  lemma {:induction false} SameParts(wide: char -> bool, p: Parts, braced: bool)
    requires PartsOk(p, braced, false) && PrintParts(FixedParts(wide, p)) == PrintParts(p)
    ensures FixedParts(wide, p) == p
    decreases p, 0
  {
    if p.Part? {
      FixedLength(wide, p.value);
      FixedPartsLength(wide, p.rest, braced);
      PartSame(wide, p);
      SameText(wide, p.value);
      SameParts(wide, p.rest, braced);
    }
  }

  lemma PartSame(wide: char -> bool, p: Parts)
    requires p.Part? && PrintParts(FixedParts(wide, p)) == PrintParts(p)
    requires |Print(Fixed(wide, p.value))| <= |Print(p.value)|
    requires |PrintParts(FixedParts(wide, p.rest))| <= |PrintParts(p.rest)|
    ensures FixedLabel(wide, p.tag) == p.tag && Print(Fixed(wide, p.value)) == Print(p.value)
    ensures PrintParts(FixedParts(wide, p.rest)) == PrintParts(p.rest)
  {
    hide Print, PrintParts, FixText, PrintLabel, Plain;
    var q := FixedParts(wide, p);
    var l, l' := PrintLabel(p.tag), PrintLabel(q.tag);
    var v, v' := Print(p.value), Print(q.value);
    var f, f' := Following(p.rest, ""), Following(q.rest, "");
    PartText(p, "");
    PartText(q, "");
    FixedLabelLength(wide, p.tag);
    FollowingLength(wide, p.rest);
    SplitFour(l, p.before, v, p.after + f, l', v', p.after + f');
    SplitSame(p.after, f, p.after, f');
    SameLabel(wide, p.tag);
    SameFollowing(wide, p.rest);
  }

  lemma FollowingLength(wide: char -> bool, more: Parts)
    requires |PrintParts(FixedParts(wide, more))| <= |PrintParts(more)|
    ensures |Following(FixedParts(wide, more), "")| <= |Following(more, "")|
  {
    hide PrintParts, FixText;
  }

  lemma SameFollowing(wide: char -> bool, more: Parts)
    requires Following(FixedParts(wide, more), "") == Following(more, "")
    ensures PrintParts(FixedParts(wide, more)) == PrintParts(more)
  {
    hide FixText;
    if more.Part? {
      var q := FixedParts(wide, more);
      assert PrintParts(q) + "" == PrintParts(q) && PrintParts(more) + "" == PrintParts(more);
      SplitSame([','], PrintParts(q), [','], PrintParts(more));
    }
  }

  lemma SameLabel(wide: char -> bool, tag: Option<Label>)
    requires PrintLabel(FixedLabel(wide, tag)) == PrintLabel(tag)
    ensures FixedLabel(wide, tag) == tag
  {
    hide FixText;
    if tag.Some? {
      var l := tag.value;
      var key := FixText(wide, l.key);
      var a, b := Quoted(key) + (l.gap + ":"), Quoted(l.key) + (l.gap + ":");
      assert PrintLabel(tag) == l.lead + b && PrintLabel(FixedLabel(wide, tag)) == l.lead + a;
      SplitSame(l.lead, a, l.lead, b);
      SplitSame(Quoted(key), l.gap + ":", Quoted(l.key), l.gap + ":");
      assert Quoted(key)[1..|key| + 1] == key && Quoted(l.key)[1..|l.key| + 1] == l.key;
    }
  }

  /** Valid JSON comes through unchanged exactly when its strings are clean. */
  lemma ValidUnchanged(wide: char -> bool, d: Doc)
    requires DocOk(d, false)
    ensures FixText(wide, Print(d)) == Print(d) <==> Clean(wide, d)
  {
    hide FixText;
    LooseIsLooser(d);
    DocFixed(wide, d);
    FixedLength(wide, d);
    if Print(Fixed(wide, d)) == Print(d) {
      SameText(wide, d);
      FixedValue(wide, d);
    }
  }

  /** repair_json on a bare object or array: valid, clean JSON is returned as it is, anything less
      clean is not. */
  lemma RepairIsIdentity(loads: string -> Option<Value>, wide: char -> bool, d: Doc)
    requires Parses(loads) && DocOk(d, false) && d.Node?
    requires forall i: nat :: !OccursAt(Print(d), FENCE, i)
    ensures RepairJson(loads, wide, Print(d)) == Print(d) <==> Clean(wide, d)
  {
    hide FixText, Extract;
    LooseIsLooser(d);
    assert "" + Print(d) + "" == Print(d);
    RepairRecovers(loads, wide, "", d, "");
    ValidUnchanged(wide, d);
    DocFixed(wide, d);
  }

  function OneString(raw: string): Doc {
    Node(false, Part(None, "", Str(raw), "", End), false, "")
  }

  lemma OneStringFixed(wide: char -> bool, raw: string)
    requires RawOk(raw)
    ensures DocOk(OneString(raw), false) && Fixed(wide, OneString(raw)) == OneString(FixText(wide, raw))
  {
    hide RawOk, FixText;
    var p := Part(None, "", Str(raw), "", End);
    assert DocOk(Str(raw), false) && PartsOk(End, false, false) && PartsOk(p, false, false);
    assert Fixed(wide, Str(raw)) == Str(FixText(wide, raw)) && FixedParts(wide, End) == End;
    assert FixedParts(wide, p) == Part(None, "", Str(FixText(wide, raw)), "", End);
  }

  /** The source's remark that the words are replaced only outside quoted strings does not hold:
      valid JSON whose one string is True, False or None is rewritten. */
  lemma QuotedWordIsRewritten(wide: char -> bool, word: string)
    requires word in {"True", "False", "None"}
    ensures DocOk(OneString(word), false)
    ensures FixText(wide, Print(OneString(word))) == Print(OneString(Spelled(word))) && Spelled(word) != word
  {
    LettersRaw(word);
    hide FixText, RawOk, Print, DocOk;
    OneStringFixed(wide, word);
    LooseIsLooser(OneString(word));
    DocFixed(wide, OneString(word));
    AtomFixed(wide, word);
    assert Spelled(word)[0] != word[0];
  }

  lemma LettersRaw(word: string)
    requires forall k :: 0 <= k < |word| ==> Letter(word[k])
    ensures RawOk(word)
  {
    RawBare(word, "");
    assert word + "" == word;
  }
}
