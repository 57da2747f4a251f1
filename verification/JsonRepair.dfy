/** repair_json of backend/app/llm/utils.py.

    json.loads and the class of non-ASCII word characters are parameters: `loads` gives the
    value of a text it accepts, `wide` tells which characters beyond ASCII \w matches. */
module JsonRepair {
  import opened Options
  import opened PyText
  import JsonText

  // ----- step 1: a markdown fence --------------------------------------------------

  const FENCE := "```"

  /** ```(?:json)?\s*\n?(.*?)\n?\s*``` , the group stripped. */
  function FenceContent(s: string): Option<string> {
    var first := Find(s, FENCE, 0);
    if first.None? then None
    else
      var after := first.value + |FENCE|;
      var start := if OccursAt(s, "json", after) then after + 4 else after;
      var second := Find(s, FENCE, start);
      if second.None? then None else Some(Strip(s[start..second.value]))
  }

  // ----- step 2: the bracket scanner ---------------------------------------------------

  function FirstBracket(s: string): nat {
    if s == "" || s[0] == '{' || s[0] == '[' then 0 else 1 + FirstBracket(s[1..])
  }

  lemma {:induction false} FirstBracketBound(s: string)
    ensures FirstBracket(s) <= |s|
    ensures FirstBracket(s) < |s| ==> s[FirstBracket(s)] == '{' || s[FirstBracket(s)] == '['
    ensures forall i :: 0 <= i < FirstBracket(s) ==> s[i] != '{' && s[i] != '['
  {
    if s != "" && s[0] != '{' && s[0] != '[' {
      FirstBracketBound(s[1..]);
    }
  }

  datatype Scan = Scan(depth: int, inString: bool, escapeNext: bool)

  function CloseOf(open: char): char {
    if open == '{' then '}' else ']'
  }

  /** The loop variables after one character. */
  function Next(open: char, st: Scan, ch: char): Scan {
    if st.escapeNext then st.(escapeNext := false)
    else if ch == '\\' && st.inString then st.(escapeNext := true)
    else if ch == '"' then st.(inString := !st.inString)
    else if st.inString then st
    else if ch == open then st.(depth := st.depth + 1)
    else if ch == CloseOf(open) then st.(depth := st.depth - 1)
    else st
  }

  /** Whether the character closes the bracket the scan started at. */
  predicate Stops(open: char, st: Scan, ch: char) {
    !st.escapeNext && !st.inString && ch == CloseOf(open) && ch != open && st.depth == 1
  }

  /** How many characters the scan takes up to and including the stop. */
  function ScanText(open: char, s: string, st: Scan): Option<nat> {
    if s == "" then None
    else if Stops(open, st, s[0]) then Some(1)
    else
      var rest := ScanText(open, s[1..], Next(open, st, s[0]));
      if rest.None? then None else Some(1 + rest.value)
  }

  function Bracketed(s: string): string {
    var first := FirstBracket(s);
    FirstBracketBound(s);
    if first == |s| then s
    else
      var taken := ScanText(s[first], s[first..], Scan(0, false, false));
      if taken.None? || first + taken.value > |s| then s else Strip(s[first..first + taken.value])
  }

  function Extract(text: string): string {
    var s := Strip(text);
    if FenceContent(s).Some? then FenceContent(s).value else Bracketed(s)
  }

  lemma {:induction false} ScanBound(open: char, s: string, st: Scan)
    ensures ScanText(open, s, st).Some? ==> 0 < ScanText(open, s, st).value <= |s|
    decreases |s|
  {
    if s != "" && !Stops(open, st, s[0]) {
      ScanBound(open, s[1..], Next(open, st, s[0]));
    }
  }

  // ----- step 3: whole-word replacement -------------------------------------------------

  predicate WordChar(wide: char -> bool, ch: char) {
    '0' <= ch <= '9' || 'a' <= ch <= 'z' || 'A' <= ch <= 'Z' || ch == '_' || (ch >= '\U{80}' && wide(ch))
  }

  /** \bw\b matches at i, for a word w. */
  predicate WordAt(wide: char -> bool, s: string, w: string, i: nat) {
    OccursAt(s, w, i) && (i == 0 || !WordChar(wide, s[i - 1])) &&
    (i + |w| == |s| || !WordChar(wide, s[i + |w|]))
  }

  function ReplaceFrom(wide: char -> bool, s: string, w: string, r: string, i: nat): string
    requires |w| > 0
    decreases |s| - i
  {
    if i >= |s| then ""
    else if WordAt(wide, s, w, i) then r + ReplaceFrom(wide, s, w, r, i + |w|)
    else [s[i]] + ReplaceFrom(wide, s, w, r, i + 1)
  }

  function Replace(wide: char -> bool, s: string, w: string, r: string): string
    requires |w| > 0
  {
    ReplaceFrom(wide, s, w, r, 0)
  }

  function FixWords(wide: char -> bool, s: string): string {
    Replace(wide, Replace(wide, Replace(wide, s, "True", "true"), "False", "false"), "None", "null")
  }

  // ----- step 4: commas before a closer ----------------------------------------------------

  /** ,\s*[}\]] matches at i. */
  predicate CommaAt(s: string, i: nat) {
    i < |s| && s[i] == ',' && var k := SkipSpace(s, i + 1); k < |s| && (s[k] == '}' || s[k] == ']')
  }

  function DropFrom(s: string, i: nat): string
    decreases |s| - i
  {
    if i >= |s| then ""
    else if CommaAt(s, i) then
      var k := SkipSpace(s, i + 1);
      [s[k]] + DropFrom(s, k + 1)
    else [s[i]] + DropFrom(s, i + 1)
  }

  function DropCommas(s: string): string {
    DropFrom(s, 0)
  }

  function FixText(wide: char -> bool, s: string): string {
    DropCommas(FixWords(wide, s))
  }

  // ----- the whole function ----------------------------------------------------------------

  function RepairJson(loads: string -> Option<JsonText.Value>, wide: char -> bool, text: string): string {
    var s := FixText(wide, Extract(text));
    if loads(s).Some? then s else "{}"
  }

  /** The scanner loop itself. */
  method FindEnd(s: string, first: nat) returns (endPos: int)
    requires first < |s|
    ensures var taken := ScanText(s[first], s[first..], Scan(0, false, false));
      endPos == if taken.None? then -1 else first + taken.value - 1
  {
    var open := s[first];
    var close := CloseOf(open);
    var depth, inString, escapeNext := 0, false, false;
    endPos := -1;
    var i := first;
    ghost var whole := ScanText(open, s[first..], Scan(0, false, false));
    while i < |s|
      invariant first <= i <= |s|
      invariant var rest := ScanText(open, s[i..], Scan(depth, inString, escapeNext));
        whole == if rest.None? then None else Some(i - first + rest.value)
    {
      var ch := s[i];
      assert s[i..][1..] == s[i + 1..];
      ScanBound(open, s[i..], Scan(depth, inString, escapeNext));
      i := i + 1;
      if escapeNext {
        escapeNext := false;
      } else if ch == '\\' && inString {
        escapeNext := true;
      } else if ch == '"' {
        inString := !inString;
      } else if inString {
      } else if ch == open {
        depth := depth + 1;
      } else if ch == close {
        depth := depth - 1;
        if depth == 0 {
          endPos := i - 1;
          return;
        }
      }
    }
  }

  method FindBracket(s: string) returns (first: nat)
    ensures first == FirstBracket(s)
  {
    first := 0;
    assert s[0..] == s;
    while first < |s| && s[first] != '{' && s[first] != '['
      invariant first <= |s| && FirstBracket(s) == first + FirstBracket(s[first..])
    {
      assert s[first..][1..] == s[first + 1..];
      first := first + 1;
    }
  }

  method ExtractBracketed(s: string) returns (r: string)
    ensures r == Bracketed(s)
  {
    var first := FindBracket(s);
    FirstBracketBound(s);
    if first == |s| {
      return s;
    }
    var endPos := FindEnd(s, first);
    ScanBound(s[first], s[first..], Scan(0, false, false));
    if endPos >= 0 {
      return Strip(s[first..endPos + 1]);
    }
    return s;
  }

  /** repair_json: fence, scanner, words, commas, and the final validation. */
  method Repair(loads: string -> Option<JsonText.Value>, wide: char -> bool, text: string) returns (s: string)
    ensures s == RepairJson(loads, wide, text)
  {
    s := Strip(text);
    var fenced := FenceContent(s);
    if fenced.Some? {
      s := fenced.value;
    } else {
      s := ExtractBracketed(s);
    }
    s := Replace(wide, s, "True", "true");
    s := Replace(wide, s, "False", "false");
    s := Replace(wide, s, "None", "null");
    s := DropCommas(s);
    if loads(s).None? {
      s := "{}";
    }
  }
}
