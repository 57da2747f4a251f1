/** What repair_json gives for text that is not JSON: the empty object. */
module JsonFallback {
  import opened Options
  import opened PyText
  import opened JsonText
  import opened JsonRepair
  import opened JsonExtraction
  import opened JsonWords
  import opened JsonCommas
  import opened JsonRepairLaws
  import opened JsonUnambiguous

  // ----- every text --------------------------------------------------------------------------------

  /** "{}" denotes the object without members. */
  lemma EmptyObject()
    ensures Load("{}") == Some(Object(Nothing))
  {
    var d := Node(true, End, false, "");
    EmptyDoc();
    hide Load, Print, ValueOf, DocOk;
    LoadIs(d);
  }

  lemma EmptyDoc()
    ensures var d := Node(true, End, false, ""); DocOk(d, false) && Print(d) == "{}" && ValueOf(d) == Object(Nothing)
  {
  }

  lemma LoadIs(d: Doc)
    requires DocOk(d, false)
    ensures Load(Print(d)) == Some(ValueOf(d))
  {
    hide Print, ValueOf, DocOk;
    assert IsStrict(Print(d));
    var e :| DocOk(e, false) && Print(e) == Print(d) && Load(Print(d)) == Some(ValueOf(e));
    TextTellsValue(d, e);
  }

  /** For every text at all the result is strict JSON: what extraction and the rewrites leave of the text
      when that is, and the object without members when it is not. */
  lemma RepairAlwaysStrict(wide: char -> bool, text: string)
    ensures var left, r := FixText(wide, Extract(text)), RepairJson(s => Load(s), wide, text);
      IsStrict(r) && if IsStrict(left) then r == left else Load(r) == Some(Object(Nothing)) && r == "{}"
  {
    hide Load, IsStrict, FixText, Extract;
    EmptyObject();
    LoadTells(FixText(wide, Extract(text)));
    LoadTells("{}");
  }

  lemma LoadTells(text: string)
    ensures Load(text).Some? <==> IsStrict(text)
  {
  }

  // ----- prose ---------------------------------------------------------------------------------------

  /** Letters and white space only. */
  predicate Prose(s: string) {
    forall i :: 0 <= i < |s| ==> Letter(s[i]) || IsSpace(s[i])
  }

  const LITERALS := {"true", "false", "null", "True", "False", "None"}

  lemma NumberStarts(s: string)
    requires IsNumber(s)
    ensures s != "" && (s[0] == '-' || JsonText.IsDigit(s[0]))
  {
    var minus, whole, fraction, exponent :|
      s == minus + whole + fraction + exponent && NumberParts(minus, whole, fraction, exponent);
    assert s[0] == (minus + whole)[0];
  }

  lemma StrictStarts(d: Doc)
    requires DocOk(d, false)
    ensures Print(d) in {"true", "false", "null"} ||
      (Print(d) != "" && !Letter(Print(d)[0]) && !IsSpace(Print(d)[0]))
  {
    match d
    case Atom(text) =>
      if IsNumber(text) {
        NumberStarts(text);
      }
    case Str(_) =>
    case Node(_, _, _, _) => NodeText(d, "");
  }

  lemma StrictProse(t: string)
    requires Prose(t) && IsStrict(t)
    ensures t in {"true", "false", "null"}
  {
    var d :| DocOk(d, false) && Print(d) == t;
    StrictStarts(d);
  }

  lemma WholeWordOnly(wide: char -> bool, s: string, w: string, i: nat)
    requires (forall k :: 0 <= k < |s| ==> Letter(s[k])) && WordAt(wide, s, w, i) && w != ""
    ensures s == w
  {
    assert s[i..i + |w|] == w;
  }

  /** Nothing but one of the literals is rewritten to one. */
  lemma OnlyLiterals(wide: char -> bool, s: string)
    requires FixWords(wide, s) in {"true", "false", "null"}
    ensures s in LITERALS
  {
    var t := FixWords(wide, s);
    FixWordsAlike(wide, s);
    FixWordsIdentity(wide, s);
    hide FixWords;
    assert forall k :: 0 <= k < |s| ==> Letter(t[k]);
    assert forall k :: 0 <= k < |s| ==> Letter(s[k]);
    if !NoWords(wide, s) {
      var i: nat :| i < |s| && WordOn(wide, s, i);
      if WordAt(wide, s, "True", i) {
        WholeWordOnly(wide, s, "True", i);
      } else if WordAt(wide, s, "False", i) {
        WholeWordOnly(wide, s, "False", i);
      } else {
        WholeWordOnly(wide, s, "None", i);
      }
    }
  }

  lemma ProseExtract(text: string)
    requires Prose(text)
    ensures Extract(text) == Strip(text) && Prose(Strip(text))
  {
    forall i: nat ensures !OccursAt(text, FENCE, i) {
      if i + 3 <= |text| {
        assert text[i..i + 3][0] == text[i];
      }
    }
    NoBackticksNoFence(text);
    var i, j := StripIsPart(text);
    var s := Strip(text);
    hide Strip, FenceContent;
    assert Prose(s);
    FirstBracketBound(s);
  }

  lemma ProseFixed(wide: char -> bool, s: string)
    requires Prose(s)
    ensures FixText(wide, s) == FixWords(wide, s) && Prose(FixWords(wide, s))
  {
    FixWordsAlike(wide, s);
    var t := FixWords(wide, s);
    hide FixWords;
    assert Prose(t);
    assert NoTrailing(t);
    DropIdentity(t);
  }

  /** A model that answers in prose gives the empty object, unless it says just one of the literals. */
  lemma ProseGivesEmptyObject(wide: char -> bool, text: string)
    requires Prose(text)
    ensures RepairJson(s => Load(s), wide, text) == "{}" <==> Strip(text) !in LITERALS
  {
    hide Load, IsStrict, FixText, FixWords, Extract, Strip, Prose, RepairJson;
    var s := Strip(text);
    ProseExtract(text);
    ProseFixed(wide, s);
    RepairAlwaysStrict(wide, text);
    var t := FixWords(wide, s);
    if IsStrict(t) {
      StrictProse(t);
      OnlyLiterals(wide, s);
    } else if s in LITERALS {
      LiteralIsStrict(wide, s);
    }
  }

  lemma LiteralIsStrict(wide: char -> bool, s: string)
    requires s in LITERALS
    ensures IsStrict(FixText(wide, s))
  {
    assert AtomOk(s, true);
    hide FixText;
    AtomFixed(wide, s);
    var d := Atom(Spelled(s));
    assert DocOk(d, false) && Print(d) == Spelled(s);
  }
}
