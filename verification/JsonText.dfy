/** JSON texts with their layout (sections 2 to 7 of RFC 8259), in the loose form language
    models write: Python's True, False and None, and one comma after the last element. */
module JsonText {
  import opened Options

  /** A document: its value and every character of its layout. */
  datatype Doc =
    | Atom(text: string)
    | Str(raw: string)
    | Node(braced: bool, parts: Parts, comma: bool, gap: string)

  /** The elements of an array, or with a label the members of an object. */
  datatype Parts =
    | End
    | Part(tag: Option<Label>, before: string, value: Doc, after: string, rest: Parts)

  datatype Label = Label(lead: string, key: string, gap: string)

  function Quoted(raw: string): string {
    "\"" + raw + "\""
  }

  function Opener(braced: bool): string {
    if braced then "{" else "["
  }

  function Closer(braced: bool): string {
    if braced then "}" else "]"
  }

  function PrintLabel(tag: Option<Label>): string {
    if tag.None? then "" else tag.value.lead + Quoted(tag.value.key) + tag.value.gap + ":"
  }

  function Print(d: Doc): string {
    match d
    case Atom(text) => text
    case Str(raw) => Quoted(raw)
    case Node(braced, parts, comma, gap) =>
      Opener(braced) + PrintParts(parts) + ((if comma then "," else "") + gap + Closer(braced))
  }

  function PrintParts(p: Parts): string {
    match p
    case End => ""
    case Part(tag, before, value, after, rest) =>
      (PrintLabel(tag) + before) + Print(value) + (after + (if rest.End? then "" else "," + PrintParts(rest)))
  }

  // ----- which documents are well formed ------------------------------------------

  predicate IsBlank(ch: char) {
    ch == ' ' || ch == '\t' || ch == '\n' || ch == '\r'
  }

  predicate Blank(s: string) {
    forall i :: 0 <= i < |s| ==> IsBlank(s[i])
  }

  predicate IsDigit(ch: char) {
    '0' <= ch <= '9'
  }

  predicate Digits(s: string) {
    |s| > 0 && forall i :: 0 <= i < |s| ==> IsDigit(s[i])
  }

  /** An integer part: no leading zero. */
  predicate IntegerPart(s: string) {
    Digits(s) && (|s| > 1 ==> s[0] != '0')
  }

  predicate FractionPart(s: string) {
    s == "" || (|s| > 1 && s[0] == '.' && Digits(s[1..]))
  }

  predicate ExponentPart(s: string) {
    s == "" ||
    (|s| > 1 && (s[0] == 'e' || s[0] == 'E') &&
     (Digits(s[1..]) || (|s| > 2 && (s[1] == '+' || s[1] == '-') && Digits(s[2..]))))
  }

  ghost predicate IsNumber(s: string) {
    exists minus, whole, fraction, exponent ::
      s == minus + whole + fraction + exponent && NumberParts(minus, whole, fraction, exponent)
  }

  predicate NumberParts(minus: string, whole: string, fraction: string, exponent: string) {
    (minus == "" || minus == "-") && IntegerPart(whole) && FractionPart(fraction) && ExponentPart(exponent)
  }

  predicate IsHex(ch: char) {
    IsDigit(ch) || 'a' <= ch <= 'f' || 'A' <= ch <= 'F'
  }

  /** The characters between the quotes of a string. */
  predicate RawOk(raw: string) {
    raw == "" ||
    (if raw[0] == '\\' then
       |raw| > 1 &&
       (if raw[1] == 'u' then |raw| > 5 && IsHex(raw[2]) && IsHex(raw[3]) && IsHex(raw[4]) && IsHex(raw[5]) && RawOk(raw[6..])
        else raw[1] in "\"\\/bfnrt" && RawOk(raw[2..]))
     else raw[0] != '"' && raw[0] >= ' ' && RawOk(raw[1..]))
  }

  ghost predicate AtomOk(text: string, python: bool) {
    text in {"true", "false", "null"} || (python && text in {"True", "False", "None"}) || IsNumber(text)
  }

  predicate LabelOk(tag: Option<Label>, braced: bool) {
    tag.Some? == braced &&
    (tag.Some? ==> Blank(tag.value.lead) && RawOk(tag.value.key) && Blank(tag.value.gap))
  }

  /** RFC 8259 texts when `loose` is false; with it, also Python words and trailing commas. */
  ghost predicate DocOk(d: Doc, loose: bool) {
    match d
    case Atom(text) => AtomOk(text, loose)
    case Str(raw) => RawOk(raw)
    case Node(braced, parts, comma, gap) =>
      PartsOk(parts, braced, loose) && Blank(gap) && (comma ==> loose && parts.Part?)
  }

  ghost predicate PartsOk(p: Parts, braced: bool, loose: bool) {
    match p
    case End => true
    case Part(tag, before, value, after, rest) =>
      LabelOk(tag, braced) && Blank(before) && DocOk(value, loose) && Blank(after) && PartsOk(rest, braced, loose)
  }

  // ----- the value a document denotes ------------------------------------------------

  datatype Value =
    | Keyword(name: string)
    | Number(text: string)
    | Text(raw: string)
    | Array(items: Values)
    | Object(items: Values)

  datatype Values = Nothing | Item(key: Option<string>, value: Value, rest: Values)

  function Spelled(text: string): string {
    if text == "True" then "true" else if text == "False" then "false" else if text == "None" then "null" else text
  }

  function ValueOf(d: Doc): Value {
    match d
    case Atom(text) => if Spelled(text) in {"true", "false", "null"} then Keyword(Spelled(text)) else Number(text)
    case Str(raw) => Text(raw)
    case Node(braced, parts, _, _) => if braced then Object(ValuesOf(parts)) else Array(ValuesOf(parts))
  }

  function ValuesOf(p: Parts): Values {
    match p
    case End => Nothing
    case Part(tag, _, value, _, rest) =>
      Item(if tag.None? then None else Some(tag.value.key), ValueOf(value), ValuesOf(rest))
  }

  /** The same document in strict spelling: JSON words, and no comma before a closer. */
  function Strict(d: Doc): Doc {
    match d
    case Atom(text) => Atom(Spelled(text))
    case Str(raw) => d
    case Node(braced, parts, comma, gap) => Node(braced, StrictParts(parts), false, if comma then "" else gap)
  }

  function StrictParts(p: Parts): Parts {
    match p
    case End => End
    case Part(tag, before, value, after, rest) => Part(tag, before, Strict(value), after, StrictParts(rest))
  }

  lemma {:induction false} StrictKeepsValue(d: Doc)
    requires DocOk(d, true)
    ensures DocOk(Strict(d), false) && ValueOf(Strict(d)) == ValueOf(d)
  {
    match d
    case Atom(text) => NumberNotWord(text);
    case Str(_) =>
    case Node(braced, parts, _, _) => StrictPartsKeepValues(parts, braced);
  }

  lemma {:induction false} StrictPartsKeepValues(p: Parts, braced: bool)
    requires PartsOk(p, braced, true)
    ensures PartsOk(StrictParts(p), braced, false) && ValuesOf(StrictParts(p)) == ValuesOf(p)
  {
    if p.Part? {
      StrictKeepsValue(p.value);
      StrictPartsKeepValues(p.rest, braced);
    }
  }

  lemma {:induction false} StrictIsIdentity(d: Doc)
    requires DocOk(d, false)
    ensures Strict(d) == d
  {
    match d
    case Atom(text) => NumberNotWord(text);
    case Str(_) =>
    case Node(braced, parts, _, _) => StrictPartsIdentity(parts, braced);
  }

  lemma {:induction false} StrictPartsIdentity(p: Parts, braced: bool)
    requires PartsOk(p, braced, false)
    ensures StrictParts(p) == p
  {
    if p.Part? {
      StrictIsIdentity(p.value);
      StrictPartsIdentity(p.rest, braced);
    }
  }

  // ----- characters of numbers ----------------------------------------------------------

  predicate NumberChar(ch: char) {
    IsDigit(ch) || ch == '-' || ch == '+' || ch == '.' || ch == 'e' || ch == 'E'
  }

  lemma PartsOfNumber(minus: string, whole: string, fraction: string, exponent: string)
    requires NumberParts(minus, whole, fraction, exponent)
    ensures var s := minus + whole + fraction + exponent;
      |s| > 0 && forall i :: 0 <= i < |s| ==> NumberChar(s[i])
  {
    forall i | 0 <= i < |fraction| ensures NumberChar(fraction[i]) {
      if i > 0 {
        assert fraction[1..][i - 1] == fraction[i];
      }
    }
    forall i | 0 <= i < |exponent| ensures NumberChar(exponent[i]) {
      if i > 0 && Digits(exponent[1..]) {
        assert exponent[1..][i - 1] == exponent[i];
      } else if i > 1 {
        assert exponent[2..][i - 2] == exponent[i];
      }
    }
  }

  lemma NumberChars(s: string)
    requires IsNumber(s)
    ensures |s| > 0 && forall i :: 0 <= i < |s| ==> NumberChar(s[i])
  {
    var minus, whole, fraction, exponent :|
      s == minus + whole + fraction + exponent && NumberParts(minus, whole, fraction, exponent);
    PartsOfNumber(minus, whole, fraction, exponent);
  }

  lemma NumberNotWord(s: string)
    requires AtomOk(s, true)
    ensures |s| > 0
    ensures s == "True" || s == "False" || s == "None" ==> !IsNumber(s)
    ensures IsNumber(s) ==> Spelled(s) == s
  {
    if IsNumber(s) {
      NumberChars(s);
      assert NumberChar(s[0]);
    }
  }
}
