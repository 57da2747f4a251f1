/** The whole-word pass of repair_json on pieces of text: it works piece by piece wherever no
    word runs across the joint, it never changes a length, and it leaves a text alone exactly
    when none of the three words stands in it. */
module JsonWords {
  import opened PyText
  import opened JsonRepair

  predicate Letter(ch: char) {
    'a' <= ch <= 'z' || 'A' <= ch <= 'Z'
  }

  predicate Word(w: string) {
    |w| > 0 && forall i :: 0 <= i < |w| ==> Letter(w[i])
  }

  /** No word runs from the end of a into b. */
  predicate Apart(wide: char -> bool, a: string, b: string) {
    a == "" || b == "" || !WordChar(wide, a[|a| - 1]) || !WordChar(wide, b[0])
  }

  lemma Occurrence(s: string, w: string, i: nat, k: nat)
    requires OccursAt(s, w, i) && k < |w|
    ensures s[i + k] == w[k]
  {
    assert s[i..i + |w|][k] == s[i + k];
  }

  lemma OccursLeft(a: string, b: string, w: string, i: nat)
    requires i + |w| <= |a|
    ensures OccursAt(a + b, w, i) <==> OccursAt(a, w, i)
  {
    assert (a + b)[i..i + |w|] == a[i..i + |w|];
  }

  lemma OccursRight(a: string, b: string, w: string, i: nat)
    ensures OccursAt(a + b, w, |a| + i) <==> OccursAt(b, w, i)
  {
    if i + |w| <= |b| {
      assert (a + b)[|a| + i..|a| + i + |w|] == b[i..i + |w|];
    }
  }

  lemma NoCrossing(wide: char -> bool, a: string, b: string, w: string, i: nat)
    requires Word(w) && Apart(wide, a, b) && i < |a| < i + |w|
    ensures !OccursAt(a + b, w, i)
  {
    if OccursAt(a + b, w, i) {
      Occurrence(a + b, w, i, |a| - 1 - i);
      Occurrence(a + b, w, i, |a| - i);
    }
  }

  lemma WordAtLeft(wide: char -> bool, a: string, b: string, w: string, i: nat)
    requires Word(w) && Apart(wide, a, b) && i < |a|
    ensures WordAt(wide, a + b, w, i) <==> WordAt(wide, a, w, i)
  {
    if i + |w| <= |a| {
      OccursLeft(a, b, w, i);
      if OccursAt(a, w, i) {
        Occurrence(a, w, i, |w| - 1);
      }
    } else {
      NoCrossing(wide, a, b, w, i);
    }
  }

  lemma WordAtRight(wide: char -> bool, a: string, b: string, w: string, i: nat)
    requires Word(w) && Apart(wide, a, b)
    ensures WordAt(wide, a + b, w, |a| + i) <==> WordAt(wide, b, w, i)
  {
    OccursRight(a, b, w, i);
    if OccursAt(b, w, i) {
      Occurrence(b, w, i, 0);
    }
  }

  /** What one step of the replacement writes, and where it goes on. */
  function Emit(wide: char -> bool, s: string, w: string, r: string, i: nat): string
    requires i < |s|
  {
    if WordAt(wide, s, w, i) then r else [s[i]]
  }

  function After(wide: char -> bool, s: string, w: string, i: nat): (k: nat)
    requires i < |s| && |w| > 0
    ensures i < k <= |s|
  {
    if WordAt(wide, s, w, i) then i + |w| else i + 1
  }

  lemma ReplaceStep(wide: char -> bool, s: string, w: string, r: string, i: nat)
    requires |w| > 0 && i < |s|
    ensures ReplaceFrom(wide, s, w, r, i) == Emit(wide, s, w, r, i) + ReplaceFrom(wide, s, w, r, After(wide, s, w, i))
  {
  }

  lemma ReplaceEnd(wide: char -> bool, s: string, w: string, r: string)
    requires |w| > 0
    ensures ReplaceFrom(wide, s, w, r, |s|) == ""
  {
  }

  lemma {:induction false} ReplaceRight(wide: char -> bool, a: string, b: string, w: string, r: string, i: nat)
    requires Word(w) && Apart(wide, a, b) && i <= |b|
    ensures ReplaceFrom(wide, a + b, w, r, |a| + i) == ReplaceFrom(wide, b, w, r, i)
    decreases |b| - i
  {
    hide ReplaceFrom, WordAt;
    if i < |b| {
      WordAtRight(wide, a, b, w, i);
      ReplaceStep(wide, a + b, w, r, |a| + i);
      ReplaceStep(wide, b, w, r, i);
      ReplaceRight(wide, a, b, w, r, After(wide, b, w, i));
    } else {
      ReplaceEnd(wide, a + b, w, r);
      ReplaceEnd(wide, b, w, r);
    }
  }

  lemma Assoc(a: string, b: string, c: string)
    ensures a + (b + c) == (a + b) + c
  {
  }

  lemma {:induction false} ReplaceLeft(wide: char -> bool, a: string, b: string, w: string, r: string, i: nat)
    requires Word(w) && Apart(wide, a, b) && i <= |a|
    ensures ReplaceFrom(wide, a + b, w, r, i) == ReplaceFrom(wide, a, w, r, i) + Replace(wide, b, w, r)
    decreases |a| - i
  {
    hide ReplaceFrom, WordAt;
    if i == |a| {
      ReplaceRight(wide, a, b, w, r, 0);
      ReplaceEnd(wide, a, w, r);
    } else {
      WordAtLeft(wide, a, b, w, i);
      ReplaceStep(wide, a + b, w, r, i);
      ReplaceStep(wide, a, w, r, i);
      var k := After(wide, a, w, i);
      ReplaceLeft(wide, a, b, w, r, k);
      Assoc(Emit(wide, a, w, r, i), ReplaceFrom(wide, a, w, r, k), Replace(wide, b, w, r));
    }
  }

  /** The same kind of character where an emitted piece begins and ends as where its source does. */
  lemma EmitEdges(wide: char -> bool, s: string, w: string, r: string, i: nat)
    requires Word(w) && Word(r) && |w| == |r| && i < |s|
    ensures var e, k := Emit(wide, s, w, r, i), After(wide, s, w, i);
      |e| == k - i && (WordChar(wide, s[i]) <==> WordChar(wide, e[0])) &&
      (WordChar(wide, s[k - 1]) <==> WordChar(wide, e[|e| - 1]))
  {
    if WordAt(wide, s, w, i) {
      Occurrence(s, w, i, 0);
      Occurrence(s, w, i, |w| - 1);
    }
  }

  lemma {:induction false} ReplaceEdges(wide: char -> bool, s: string, w: string, r: string, i: nat)
    requires Word(w) && Word(r) && |w| == |r| && i < |s|
    ensures var t := ReplaceFrom(wide, s, w, r, i);
      |t| == |s| - i && (WordChar(wide, s[i]) <==> WordChar(wide, t[0])) &&
      (WordChar(wide, s[|s| - 1]) <==> WordChar(wide, t[|t| - 1]))
    decreases |s| - i
  {
    hide ReplaceFrom, WordAt, WordChar;
    ReplaceStep(wide, s, w, r, i);
    EmitEdges(wide, s, w, r, i);
    var k := After(wide, s, w, i);
    if k < |s| {
      ReplaceEdges(wide, s, w, r, k);
    } else {
      ReplaceEnd(wide, s, w, r);
    }
  }

  lemma ReplaceSeam(wide: char -> bool, a: string, b: string, w: string, r: string)
    requires Word(w) && Word(r) && |w| == |r| && Apart(wide, a, b)
    ensures Replace(wide, a + b, w, r) == Replace(wide, a, w, r) + Replace(wide, b, w, r)
    ensures Apart(wide, Replace(wide, a, w, r), Replace(wide, b, w, r))
  {
    ReplaceLeft(wide, a, b, w, r, 0);
    if a != "" && b != "" {
      ReplaceEdges(wide, a, w, r, 0);
      ReplaceEdges(wide, b, w, r, 0);
    }
  }

  /** The three replacements of a joint text are those of its pieces. */
  lemma FixWordsSeam(wide: char -> bool, a: string, b: string)
    requires Apart(wide, a, b)
    ensures FixWords(wide, a + b) == FixWords(wide, a) + FixWords(wide, b)
  {
    hide Replace;
    var a1, b1 := Replace(wide, a, "True", "true"), Replace(wide, b, "True", "true");
    ReplaceSeam(wide, a, b, "True", "true");
    var a2, b2 := Replace(wide, a1, "False", "false"), Replace(wide, b1, "False", "false");
    ReplaceSeam(wide, a1, b1, "False", "false");
    ReplaceSeam(wide, a2, b2, "None", "null");
  }

  // ----- which texts the pass leaves alone ---------------------------------------------

  predicate WordOn(wide: char -> bool, s: string, i: nat) {
    WordAt(wide, s, "True", i) || WordAt(wide, s, "False", i) || WordAt(wide, s, "None", i)
  }

  predicate NoWords(wide: char -> bool, s: string) {
    forall i: nat :: i < |s| ==> !WordOn(wide, s, i)
  }

  lemma {:induction false} ReplaceNothing(wide: char -> bool, s: string, w: string, r: string, i: nat)
    requires |w| > 0 && i <= |s| && forall k: nat :: i <= k < |s| ==> !WordAt(wide, s, w, k)
    ensures ReplaceFrom(wide, s, w, r, i) == s[i..]
    decreases |s| - i
  {
    if i < |s| {
      ReplaceNothing(wide, s, w, r, i + 1);
    }
  }

  lemma FixWordsNothing(wide: char -> bool, s: string)
    requires NoWords(wide, s)
    ensures FixWords(wide, s) == s
  {
    forall k: nat | k < |s|
      ensures !WordAt(wide, s, "True", k) && !WordAt(wide, s, "False", k) && !WordAt(wide, s, "None", k)
    {
      assert !WordOn(wide, s, k);
    }
    assert s[0..] == s;
    ReplaceNothing(wide, s, "True", "true", 0);
    ReplaceNothing(wide, s, "False", "false", 0);
    ReplaceNothing(wide, s, "None", "null", 0);
  }

  predicate Lower(r: string) {
    forall k :: 0 <= k < |r| ==> 'a' <= r[k] <= 'z'
  }

  lemma {:induction false} ReplaceLength(wide: char -> bool, s: string, w: string, r: string, i: nat)
    requires Word(w) && |w| == |r| && i <= |s|
    ensures |ReplaceFrom(wide, s, w, r, i)| == |s| - i
    decreases |s| - i
  {
    if i < |s| {
      ReplaceLength(wide, s, w, r, After(wide, s, w, i));
    }
  }

  lemma EmitKeeps(wide: char -> bool, s: string, w: string, r: string, i: nat, j: nat)
    requires Word(w) && |w| == |r| && Lower(r) && i < |s|
    ensures var e, k := Emit(wide, s, w, r, i), After(wide, s, w, i);
      |e| == k - i && (i <= j < k ==> e[j - i] == s[j] || (Letter(s[j]) && 'a' <= e[j - i] <= 'z'))
  {
    if WordAt(wide, s, w, i) && i <= j < i + |w| {
      Occurrence(s, w, i, j - i);
    }
  }

  /** A character stays, or is a letter and becomes a lower-case one. */
  lemma {:induction false} ReplaceKeeps(wide: char -> bool, s: string, w: string, r: string, i: nat, j: nat)
    requires Word(w) && |w| == |r| && Lower(r) && i <= j < |s|
    ensures |ReplaceFrom(wide, s, w, r, i)| == |s| - i
    ensures var ch := ReplaceFrom(wide, s, w, r, i)[j - i]; ch == s[j] || (Letter(s[j]) && 'a' <= ch <= 'z')
    decreases |s| - i
  {
    hide ReplaceFrom, WordAt;
    ReplaceStep(wide, s, w, r, i);
    EmitKeeps(wide, s, w, r, i, j);
    var k := After(wide, s, w, i);
    if k <= j {
      ReplaceKeeps(wide, s, w, r, k, j);
    } else {
      ReplaceLength(wide, s, w, r, k);
    }
  }

  lemma NoOverlap(wide: char -> bool, s: string, w: string, i: nat, j: nat)
    requires Word(w) && WordAt(wide, s, w, i) && WordAt(wide, s, w, j) && i < j
    ensures i + |w| <= j
  {
    if j < i + |w| {
      Occurrence(s, w, i, j - 1 - i);
    }
  }

  /** Every match is replaced. */
  lemma {:induction false} ReplaceHits(wide: char -> bool, s: string, w: string, r: string, i: nat, j: nat)
    requires Word(w) && |w| == |r| && i <= j < |s| && WordAt(wide, s, w, j)
    ensures |ReplaceFrom(wide, s, w, r, i)| == |s| - i && ReplaceFrom(wide, s, w, r, i)[j - i] == r[0]
    decreases |s| - i
  {
    hide ReplaceFrom, WordAt;
    ReplaceLength(wide, s, w, r, i);
    ReplaceStep(wide, s, w, r, i);
    if i < j {
      if WordAt(wide, s, w, i) {
        NoOverlap(wide, s, w, i, j);
      }
      ReplaceHits(wide, s, w, r, After(wide, s, w, i), j);
    }
  }

  lemma ReplaceAll(wide: char -> bool, s: string, w: string, r: string, j: nat)
    requires Word(w) && |w| == |r| && Lower(r) && j < |s|
    ensures var t := Replace(wide, s, w, r);
      |t| == |s| && (t[j] == s[j] || (Letter(s[j]) && 'a' <= t[j] <= 'z')) && (WordAt(wide, s, w, j) ==> t[j] == r[0])
  {
    ReplaceKeeps(wide, s, w, r, 0, j);
    if WordAt(wide, s, w, j) {
      ReplaceHits(wide, s, w, r, 0, j);
    }
  }

  lemma FixWordsLength(wide: char -> bool, s: string)
    ensures |FixWords(wide, s)| == |s|
  {
    var s1 := Replace(wide, s, "True", "true");
    var s2 := Replace(wide, s1, "False", "false");
    ReplaceLength(wide, s, "True", "true", 0);
    ReplaceLength(wide, s1, "False", "false", 0);
    ReplaceLength(wide, s2, "None", "null", 0);
  }

  /** The same text up to the case and choice of letters. */
  predicate Alike(s: string, t: string) {
    |s| == |t| && forall j :: 0 <= j < |s| ==> s[j] == t[j] || (Letter(s[j]) && Letter(t[j]))
  }

  lemma FixWordsAlike(wide: char -> bool, s: string)
    ensures Alike(s, FixWords(wide, s))
  {
    hide Replace, Letter;
    FixWordsLength(wide, s);
    forall j: nat | j < |s|
      ensures s[j] == FixWords(wide, s)[j] || (Letter(s[j]) && Letter(FixWords(wide, s)[j]))
    {
      FixWordsKeeps(wide, s, j);
    }
  }

  lemma FixWordsKeeps(wide: char -> bool, s: string, j: nat)
    requires j < |s| == |FixWords(wide, s)|
    ensures s[j] == FixWords(wide, s)[j] || (Letter(s[j]) && Letter(FixWords(wide, s)[j]))
  {
    hide Replace;
    var s1 := Replace(wide, s, "True", "true");
    ReplaceAll(wide, s, "True", "true", j);
    var s2 := Replace(wide, s1, "False", "false");
    ReplaceAll(wide, s1, "False", "false", j);
    ReplaceAll(wide, s2, "None", "null", j);
  }

  /** A word that stands in the text is gone afterwards. */
  lemma FixWordsHits(wide: char -> bool, s: string, i: nat)
    requires i < |s| && WordOn(wide, s, i)
    ensures FixWords(wide, s) != s
  {
    var s1 := Replace(wide, s, "True", "true");
    var s2 := Replace(wide, s1, "False", "false");
    if j: nat :| j < |s| && WordAt(wide, s, "True", j) {
      LaterKeep(wide, s, s1, s2, j);
    } else {
      ReplaceNothing(wide, s, "True", "true", 0);
      assert s1 == s;
      if j: nat :| j < |s| && WordAt(wide, s, "False", j) {
        LaterKeep(wide, s, s1, s2, j);
      } else {
        ReplaceNothing(wide, s, "False", "false", 0);
        assert s2 == s;
        LaterKeep(wide, s, s1, s2, i);
      }
    }
  }

  lemma LaterKeep(wide: char -> bool, s: string, s1: string, s2: string, j: nat)
    requires s1 == Replace(wide, s, "True", "true") && s2 == Replace(wide, s1, "False", "false") && j < |s|
    requires WordAt(wide, s, "True", j) || WordAt(wide, s1, "False", j) || WordAt(wide, s2, "None", j)
    requires WordOn(wide, s, j)
    ensures FixWords(wide, s) != s
  {
    hide Replace, WordAt;
    ReplaceAll(wide, s, "True", "true", j);
    ReplaceAll(wide, s1, "False", "false", j);
    ReplaceAll(wide, s2, "None", "null", j);
    WordStart(wide, s, j);
    assert 'a' <= FixWords(wide, s)[j] <= 'z';
  }

  lemma WordStart(wide: char -> bool, s: string, i: nat)
    requires i < |s| && WordOn(wide, s, i)
    ensures s[i] == 'T' || s[i] == 'F' || s[i] == 'N'
  {
    if WordAt(wide, s, "True", i) {
      Occurrence(s, "True", i, 0);
    } else if WordAt(wide, s, "False", i) {
      Occurrence(s, "False", i, 0);
    } else {
      Occurrence(s, "None", i, 0);
    }
  }

  /** The pass leaves a text alone exactly when none of the three words stands in it. */
  lemma FixWordsIdentity(wide: char -> bool, s: string)
    ensures FixWords(wide, s) == s <==> NoWords(wide, s)
  {
    if NoWords(wide, s) {
      FixWordsNothing(wide, s);
    } else {
      var i: nat :| i < |s| && WordOn(wide, s, i);
      FixWordsHits(wide, s, i);
    }
  }
}
