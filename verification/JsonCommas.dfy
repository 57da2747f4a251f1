/** The trailing-comma pass of repair_json on pieces of text. */
module JsonCommas {
  import opened PyText
  import opened JsonRepair
  import opened JsonWords

  predicate IsCloser(ch: char) {
    ch == '}' || ch == ']'
  }

  /** The text ends in a comma and spaces. */
  predicate Hanging(a: string) {
    exists i :: 0 <= i < |a| && a[i] == ',' && SkipSpace(a, i + 1) == |a|
  }

  /** The first character that is no space is there, and closes nothing. */
  predicate Begins(b: string) {
    var k := SkipSpace(b, 0);
    k < |b| && !IsCloser(b[k])
  }

  /** No trailing comma runs across the joint. */
  predicate Settled(a: string, b: string) {
    !Hanging(a) || Begins(b)
  }

  lemma CommaLeft(a: string, b: string, i: nat)
    requires Settled(a, b) && i < |a|
    ensures CommaAt(a + b, i) <==> CommaAt(a, i)
    ensures CommaAt(a, i) ==> SkipSpace(a + b, i + 1) == SkipSpace(a, i + 1)
  {
    SkipLeft(a, b, i + 1);
  }

  lemma CommaRight(a: string, b: string, i: nat)
    requires i < |b|
    ensures CommaAt(a + b, |a| + i) <==> CommaAt(b, i)
    ensures SkipSpace(a + b, |a| + i + 1) == |a| + SkipSpace(b, i + 1)
  {
    SkipRight(a, b, i + 1);
  }

  /** What one step of the pass writes, and where it goes on. */
  function Kept(s: string, i: nat): string
    requires i < |s|
  {
    if CommaAt(s, i) then [s[SkipSpace(s, i + 1)]] else [s[i]]
  }

  function Past(s: string, i: nat): (k: nat)
    requires i < |s|
    ensures i < k <= |s|
  {
    if CommaAt(s, i) then SkipSpace(s, i + 1) + 1 else i + 1
  }

  lemma DropStep(s: string, i: nat)
    requires i < |s|
    ensures DropFrom(s, i) == Kept(s, i) + DropFrom(s, Past(s, i))
  {
  }

  lemma DropEnd(s: string)
    ensures DropFrom(s, |s|) == ""
  {
  }

  lemma {:induction false} DropRight(a: string, b: string, i: nat)
    requires i <= |b|
    ensures DropFrom(a + b, |a| + i) == DropFrom(b, i)
    decreases |b| - i
  {
    hide DropFrom, SkipSpace;
    if i < |b| {
      CommaRight(a, b, i);
      DropStep(a + b, |a| + i);
      DropStep(b, i);
      DropRight(a, b, Past(b, i));
    } else {
      DropEnd(a + b);
      DropEnd(b);
    }
  }

  lemma {:induction false} DropLeft(a: string, b: string, i: nat)
    requires Settled(a, b) && i <= |a|
    ensures DropFrom(a + b, i) == DropFrom(a, i) + DropCommas(b)
    decreases |a| - i
  {
    hide DropFrom, SkipSpace, Settled;
    if i == |a| {
      DropRight(a, b, 0);
      DropEnd(a);
    } else {
      CommaLeft(a, b, i);
      DropStep(a + b, i);
      DropStep(a, i);
      var k := Past(a, i);
      DropLeft(a, b, k);
      Assoc(Kept(a, i), DropFrom(a, k), DropCommas(b));
    }
  }

  /** The pass on a joint text is the pass on its pieces. */
  lemma DropSeam(a: string, b: string)
    requires Settled(a, b)
    ensures DropCommas(a + b) == DropCommas(a) + DropCommas(b)
  {
    DropLeft(a, b, 0);
  }

  // ----- which texts the pass leaves alone ------------------------------------------------

  predicate NoTrailing(s: string) {
    forall i: nat :: i < |s| ==> !CommaAt(s, i)
  }

  lemma {:induction false} DropNothing(s: string, i: nat)
    requires NoTrailing(s) && i <= |s|
    ensures DropFrom(s, i) == s[i..]
    decreases |s| - i
  {
    if i < |s| {
      assert !CommaAt(s, i);
      DropNothing(s, i + 1);
    }
  }

  lemma {:induction false} DropLength(s: string, i: nat)
    requires i <= |s|
    ensures |DropFrom(s, i)| <= |s| - i
    decreases |s| - i
  {
    hide SkipSpace;
    if i < |s| {
      DropStep(s, i);
      DropLength(s, Past(s, i));
    }
  }

  lemma {:induction false} DropShrinks(s: string, i: nat, j: nat)
    requires i <= j < |s| && CommaAt(s, j)
    ensures |DropFrom(s, i)| < |s| - i
    decreases |s| - i
  {
    hide DropFrom, SkipSpace;
    DropStep(s, i);
    var k := Past(s, i);
    if i == j || k <= j {
      if k <= j {
        DropShrinks(s, k, j);
      } else {
        DropLength(s, k);
      }
    } else {
      SkipStops(s, i + 1, j);
    }
  }

  /** The pass leaves a text alone exactly when it holds no comma before a closer. */
  lemma DropIdentity(s: string)
    ensures |DropCommas(s)| <= |s|
    ensures |DropCommas(s)| == |s| <==> NoTrailing(s)
    ensures NoTrailing(s) ==> DropCommas(s) == s
  {
    DropLength(s, 0);
    if NoTrailing(s) {
      DropNothing(s, 0);
      assert s[0..] == s;
    } else {
      var j: nat :| j < |s| && CommaAt(s, j);
      DropShrinks(s, 0, j);
    }
  }

  // ----- the pass sees only punctuation and spaces ----------------------------------------

  lemma {:induction false} SkipAlike(s: string, t: string, i: nat)
    requires Alike(s, t) && i <= |s|
    ensures SkipSpace(s, i) == SkipSpace(t, i)
    decreases |s| - i
  {
    if i < |s| {
      assert s[i] == t[i] || (Letter(s[i]) && Letter(t[i]));
      if IsSpace(s[i]) {
        SkipAlike(s, t, i + 1);
      }
    }
  }

  lemma HangingAlike(s: string, t: string)
    requires Alike(s, t) && Hanging(t)
    ensures Hanging(s)
  {
    var i :| 0 <= i < |t| && t[i] == ',' && SkipSpace(t, i + 1) == |t|;
    assert s[i] == ',';
    SkipAlike(s, t, i + 1);
  }

  lemma SettledAlike(a: string, b: string, a': string, b': string)
    requires Alike(a, a') && Alike(b, b') && Settled(a, b)
    ensures Settled(a', b')
  {
    if Hanging(a') {
      HangingAlike(a, a');
      SkipAlike(b, b', 0);
      var k := SkipSpace(b, 0);
      assert b[k] == b'[k] || (Letter(b[k]) && Letter(b'[k]));
    }
  }

  lemma CommaAlike(s: string, t: string, i: nat)
    requires Alike(s, t) && i < |s|
    ensures CommaAt(s, i) <==> CommaAt(t, i)
  {
    assert s[i] == t[i] || (Letter(s[i]) && Letter(t[i]));
    SkipAlike(s, t, i + 1);
    var k := SkipSpace(s, i + 1);
    if k < |s| {
      assert s[k] == t[k] || (Letter(s[k]) && Letter(t[k]));
    }
  }

  // ----- both passes together ---------------------------------------------------------------

  /** Neither a word nor a trailing comma runs across the joint. */
  predicate Joint(wide: char -> bool, a: string, b: string) {
    Apart(wide, a, b) && Settled(a, b)
  }

  lemma FixTextSeam(wide: char -> bool, a: string, b: string)
    requires Joint(wide, a, b)
    ensures FixText(wide, a + b) == FixText(wide, a) + FixText(wide, b)
  {
    hide FixWords, DropCommas, Alike;
    FixWordsSeam(wide, a, b);
    FixWordsAlike(wide, a);
    FixWordsAlike(wide, b);
    SettledAlike(a, b, FixWords(wide, a), FixWords(wide, b));
    DropSeam(FixWords(wide, a), FixWords(wide, b));
  }

  /** No whole word True, False or None, and no comma before a closing bracket. */
  predicate Plain(wide: char -> bool, s: string) {
    NoWords(wide, s) && NoTrailing(s)
  }

  /** The two passes leave a text alone exactly when it is plain, and never make it longer. */
  lemma FixTextIdentity(wide: char -> bool, s: string)
    ensures |FixText(wide, s)| <= |s|
    ensures FixText(wide, s) == s <==> Plain(wide, s)
  {
    hide FixWords, DropCommas, CommaAt;
    var t := FixWords(wide, s);
    FixWordsAlike(wide, s);
    forall i: nat | i < |s| ensures CommaAt(s, i) <==> CommaAt(t, i) {
      CommaAlike(s, t, i);
    }
    FixWordsIdentity(wide, s);
    DropIdentity(t);
  }
}
