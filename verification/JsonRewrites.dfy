/** The two rewrites of repair_json on any text at all, character by character: which words are replaced, and
    which characters are dropped. */
module JsonRewrites {
  import opened CharClasses
  import opened Options
  import opened PyText
  import opened JsonRepair
  import opened JsonWords

  // ----- words ------------------------------------------------------------------------------------------

  /** The character is part of a word: a letter, a digit, an underscore, or one beyond ASCII that counts as such. */
  predicate Joins(wide: char -> bool, ch: char) {
    ch in SMALL || ch in CAPITAL || ch in DIGITS || ch == '_' || (ch as int > 127 && wide(ch))
  }

  lemma JoinsIsWordChar(wide: char -> bool, ch: char)
    ensures Joins(wide, ch) <==> WordChar(wide, ch)
  {
    SmallLetters(ch);
    CapitalLetters(ch);
    DecimalDigits(ch);
  }

  /** The word stands at i with nothing joined to it. */
  predicate StandsAlone(wide: char -> bool, s: string, w: string, i: nat) {
    i + |w| <= |s| && s[i..i + |w|] == w && (i > 0 ==> !Joins(wide, s[i - 1])) &&
    (i + |w| < |s| ==> !Joins(wide, s[i + |w|]))
  }

  lemma AloneIsWordAt(wide: char -> bool, s: string, w: string, i: nat)
    ensures StandsAlone(wide, s, w, i) <==> WordAt(wide, s, w, i)
  {
    hide WordChar, Joins;
    if i + |w| <= |s| {
      if i > 0 {
        JoinsIsWordChar(wide, s[i - 1]);
      }
      if i + |w| < |s| {
        JoinsIsWordChar(wide, s[i + |w|]);
      }
    }
  }

  predicate Covers(wide: char -> bool, s: string, w: string, i: nat, j: nat) {
    WordAt(wide, s, w, i) && i <= j < i + |w|
  }

  /** Two words that stand alone and overlap are one. */
  lemma AloneOverlap(wide: char -> bool, s: string, u: string, i: nat, v: string, k: nat)
    requires Word(u) && Word(v) && WordAt(wide, s, u, i) && WordAt(wide, s, v, k)
    requires i < k + |v| && k < i + |u|
    ensures i == k && u == v
  {
    if i < k {
      Occurrence(s, u, i, k - 1 - i);
    } else if k < i {
      Occurrence(s, v, k, i - 1 - k);
    } else if |u| < |v| {
      Occurrence(s, v, k, |u|);
    } else if |v| < |u| {
      Occurrence(s, u, i, |v|);
    }
  }

  /** Replacing one word: what it covers becomes the replacement, and everything else stays. */
  lemma {:induction false} ReplaceFromExactly(wide: char -> bool, s: string, w: string, r: string, i: nat, j: nat)
    requires Word(w) && |w| == |r| && i <= j < |s|
    requires forall k: nat :: k < i && WordAt(wide, s, w, k) ==> k + |w| <= i
    ensures |ReplaceFrom(wide, s, w, r, i)| == |s| - i
    ensures forall k: nat :: Covers(wide, s, w, k, j) ==> ReplaceFrom(wide, s, w, r, i)[j - i] == r[j - k]
    ensures (forall k: nat :: !Covers(wide, s, w, k, j)) ==> ReplaceFrom(wide, s, w, r, i)[j - i] == s[j]
    decreases |s| - i
  {
    hide ReplaceFrom, WordAt;
    ReplaceLength(wide, s, w, r, i);
    ReplaceStep(wide, s, w, r, i);
    var next := After(wide, s, w, i);
    var rest := ReplaceFrom(wide, s, w, r, next);
    if WordAt(wide, s, w, i) {
      assert next == i + |w|;
      forall k: nat | k < next && WordAt(wide, s, w, k) ensures k + |w| <= next {
        if i < k {
          NoOverlap(wide, s, w, i, k);
        }
      }
    }
    if j < next {
      NowExactly(wide, s, w, r, i, j);
      assert (Emit(wide, s, w, r, i) + rest)[j - i] == Emit(wide, s, w, r, i)[j - i];
    } else {
      ReplaceFromExactly(wide, s, w, r, next, j);
      assert (Emit(wide, s, w, r, i) + rest)[j - i] == rest[j - next];
    }
  }

  lemma NowExactly(wide: char -> bool, s: string, w: string, r: string, i: nat, j: nat)
    requires Word(w) && |w| == |r| && i <= j < |s| && j < After(wide, s, w, i)
    requires forall k: nat :: k < i && WordAt(wide, s, w, k) ==> k + |w| <= i
    ensures |Emit(wide, s, w, r, i)| == After(wide, s, w, i) - i
    ensures forall k: nat :: Covers(wide, s, w, k, j) ==> Emit(wide, s, w, r, i)[j - i] == r[j - k]
    ensures (forall k: nat :: !Covers(wide, s, w, k, j)) ==> Emit(wide, s, w, r, i)[j - i] == s[j]
  {
    hide WordAt;
    if WordAt(wide, s, w, i) {
      assert Covers(wide, s, w, i, j);
      forall k: nat | Covers(wide, s, w, k, j) ensures k == i {
        AloneOverlap(wide, s, w, i, w, k);
      }
    }
  }

  lemma ReplaceExactly(wide: char -> bool, s: string, w: string, r: string, j: nat)
    requires Word(w) && |w| == |r| && j < |s|
    ensures |Replace(wide, s, w, r)| == |s|
    ensures forall k: nat :: Covers(wide, s, w, k, j) ==> Replace(wide, s, w, r)[j] == r[j - k]
    ensures (forall k: nat :: !Covers(wide, s, w, k, j)) ==> Replace(wide, s, w, r)[j] == s[j]
  {
    ReplaceFromExactly(wide, s, w, r, 0, j);
  }

  /** It joins nothing and parts nothing. */
  lemma ReplaceJoins(wide: char -> bool, s: string, w: string, r: string, j: nat)
    requires Word(w) && Word(r) && |w| == |r| && j < |s|
    ensures |Replace(wide, s, w, r)| == |s| && (WordChar(wide, Replace(wide, s, w, r)[j]) <==> WordChar(wide, s[j]))
  {
    hide Replace, WordAt;
    ReplaceExactly(wide, s, w, r, j);
    if k: nat :| Covers(wide, s, w, k, j) {
      CoveredLetter(wide, s, w, k, j);
    }
  }

  lemma CoveredLetter(wide: char -> bool, s: string, w: string, k: nat, j: nat)
    requires Covers(wide, s, w, k, j) && j < |s|
    ensures s[j] == w[j - k]
  {
    Occurrence(s, w, k, j - k);
  }

  lemma SameEdges(wide: char -> bool, s: string, t: string, v: string, i: nat)
    requires |t| == |s| && (forall j :: 0 <= j < |s| ==> (WordChar(wide, t[j]) <==> WordChar(wide, s[j])))
    requires OccursAt(s, v, i) && OccursAt(t, v, i)
    ensures WordAt(wide, s, v, i) <==> WordAt(wide, t, v, i)
  {
  }

  lemma SameSlice(s: string, t: string, v: string, i: nat)
    requires |t| == |s| && i + |v| <= |s| && forall j :: i <= j < i + |v| ==> t[j] == s[j]
    ensures OccursAt(s, v, i) <==> OccursAt(t, v, i)
  {
    var a, b := s[i..i + |v|], t[i..i + |v|];
    forall j | 0 <= j < |v| ensures a[j] == b[j] {
      assert a[j] == s[i + j] && b[j] == t[i + j];
    }
    assert a == b;
  }

  /** The replacement stands alone where the word did. */
  lemma ReplacementAlone(wide: char -> bool, s: string, w: string, r: string, k: nat)
    requires Word(w) && Word(r) && |w| == |r| && WordAt(wide, s, w, k)
    ensures WordAt(wide, Replace(wide, s, w, r), r, k)
  {
    hide Replace, WordChar;
    var t := Replace(wide, s, w, r);
    ReplaceWhole(wide, s, w, r);
    forall j: nat | j < |s| ensures |t| == |s| && (WordChar(wide, t[j]) <==> WordChar(wide, s[j])) {
      ReplaceJoins(wide, s, w, r, j);
    }
    forall j: nat | k <= j < k + |w| ensures |t| == |s| && t[j] == r[j - k] {
      ReplaceExactly(wide, s, w, r, j);
      assert Covers(wide, s, w, k, j);
    }
    assert |t| == |s|;
    var part := t[k..k + |r|];
    forall x | 0 <= x < |r| ensures part[x] == r[x] {
      assert part[x] == t[k + x];
    }
    assert part == r;
  }

  /** Another word that stands alone before does so after, and the other way round. */
  lemma OtherWordStays(wide: char -> bool, s: string, w: string, r: string, v: string, i: nat)
    requires Word(w) && Word(r) && Word(v) && |w| == |r| && v != w && v != r
    ensures WordAt(wide, Replace(wide, s, w, r), v, i) <==> WordAt(wide, s, v, i)
  {
    hide Replace, WordChar, WordAt;
    var t := Replace(wide, s, w, r);
    ReplaceWhole(wide, s, w, r);
    forall j: nat | j < |s| ensures WordChar(wide, t[j]) <==> WordChar(wide, s[j]) {
      ReplaceJoins(wide, s, w, r, j);
    }
    if i + |v| <= |s| {
      if j, k: nat :| i <= j < i + |v| && Covers(wide, s, w, k, j) {
        ReplacementAlone(wide, s, w, r, k);
        if WordAt(wide, s, v, i) {
          AloneOverlap(wide, s, v, i, w, k);
        }
        if WordAt(wide, t, v, i) {
          AloneOverlap(wide, t, v, i, r, k);
        }
      } else {
        forall j: nat | i <= j < i + |v| ensures t[j] == s[j] {
          ReplaceExactly(wide, s, w, r, j);
        }
        SameSlice(s, t, v, i);
        WordOccurs(wide, s, v, i);
        WordOccurs(wide, t, v, i);
        if OccursAt(s, v, i) {
          SameEdges(wide, s, t, v, i);
        }
      }
    } else {
      WordOccurs(wide, s, v, i);
      WordOccurs(wide, t, v, i);
    }
  }

  lemma WordOccurs(wide: char -> bool, s: string, v: string, i: nat)
    ensures WordAt(wide, s, v, i) ==> OccursAt(s, v, i) && i + |v| <= |s|
  {
  }

  lemma ReplaceWhole(wide: char -> bool, s: string, w: string, r: string)
    requires Word(w) && |w| == |r|
    ensures |Replace(wide, s, w, r)| == |s|
  {
    ReplaceLength(wide, s, w, r, 0);
  }

  /** The character is in a word that stands alone, which becomes another there. */
  predicate Renamed(wide: char -> bool, s: string, w: string, i: nat, j: nat) {
    StandsAlone(wide, s, w, i) && i <= j < i + |w|
  }

  lemma RenamedIsCovered(wide: char -> bool, s: string, w: string, i: nat, j: nat)
    ensures Renamed(wide, s, w, i, j) <==> Covers(wide, s, w, i, j)
  {
    AloneIsWordAt(wide, s, w, i);
  }

  /** For every text and every character of it: inside True, False or None standing alone it becomes that of true,
      false or null at the same place, and anywhere else it stays. */
  lemma FixWordsExactly(wide: char -> bool, s: string, j: nat)
    requires j < |s|
    ensures |FixWords(wide, s)| == |s|
    ensures forall i: nat :: Renamed(wide, s, "True", i, j) ==> FixWords(wide, s)[j] == "true"[j - i]
    ensures forall i: nat :: Renamed(wide, s, "False", i, j) ==> FixWords(wide, s)[j] == "false"[j - i]
    ensures forall i: nat :: Renamed(wide, s, "None", i, j) ==> FixWords(wide, s)[j] == "null"[j - i]
    ensures (forall i: nat :: !Renamed(wide, s, "True", i, j) && !Renamed(wide, s, "False", i, j) &&
                              !Renamed(wide, s, "None", i, j)) ==> FixWords(wide, s)[j] == s[j]
  {
    hide Replace, WordAt, StandsAlone;
    var s1 := Replace(wide, s, "True", "true");
    ReplaceWhole(wide, s, "True", "true");
    var s2 := Replace(wide, s1, "False", "false");
    ReplaceWhole(wide, s1, "False", "false");
    ReplaceExactly(wide, s, "True", "true", j);
    ReplaceExactly(wide, s1, "False", "false", j);
    ReplaceExactly(wide, s2, "None", "null", j);
    forall i: nat
      ensures Covers(wide, s1, "False", i, j) <==> Renamed(wide, s, "False", i, j)
      ensures Covers(wide, s2, "None", i, j) <==> Renamed(wide, s, "None", i, j)
      ensures Covers(wide, s, "True", i, j) <==> Renamed(wide, s, "True", i, j)
    {
      OtherWordStays(wide, s, "True", "true", "False", i);
      OtherWordStays(wide, s, "True", "true", "None", i);
      OtherWordStays(wide, s1, "False", "false", "None", i);
      RenamedIsCovered(wide, s, "True", i, j);
      RenamedIsCovered(wide, s, "False", i, j);
      RenamedIsCovered(wide, s, "None", i, j);
    }
    forall i: nat, k: nat
      ensures !(Covers(wide, s, "True", i, j) && Covers(wide, s1, "False", k, j))
      ensures !(Covers(wide, s, "True", i, j) && Covers(wide, s2, "None", k, j))
      ensures !(Covers(wide, s1, "False", i, j) && Covers(wide, s2, "None", k, j))
    {
      OneWordOnly(wide, s, s1, s2, i, k, j);
    }
  }

  lemma OneWordOnly(wide: char -> bool, s: string, s1: string, s2: string, i: nat, k: nat, j: nat)
    requires s1 == Replace(wide, s, "True", "true") && s2 == Replace(wide, s1, "False", "false")
    ensures !(Covers(wide, s, "True", i, j) && Covers(wide, s1, "False", k, j))
    ensures !(Covers(wide, s, "True", i, j) && Covers(wide, s2, "None", k, j))
    ensures !(Covers(wide, s1, "False", i, j) && Covers(wide, s2, "None", k, j))
  {
    hide Replace, WordAt;
    OtherWordStays(wide, s, "True", "true", "False", k);
    OtherWordStays(wide, s, "True", "true", "None", k);
    OtherWordStays(wide, s1, "False", "false", "None", k);
    if Covers(wide, s, "True", i, j) {
      if Covers(wide, s1, "False", k, j) {
        AloneOverlap(wide, s, "True", i, "False", k);
      }
    }
    if Covers(wide, s, "True", i, j) {
      if Covers(wide, s2, "None", k, j) {
        AloneOverlap(wide, s, "True", i, "None", k);
      }
    }
    if Covers(wide, s1, "False", i, j) {
      if Covers(wide, s2, "None", k, j) {
        AloneOverlap(wide, s1, "False", i, "None", k);
      }
    }
  }

  // ----- commas -------------------------------------------------------------------------------------------

  /** A comma at i, then nothing but white space up to a closing bracket at k. */
  ghost predicate Trailing(s: string, i: nat, k: nat) {
    i < k < |s| && s[i] == ',' && (forall m :: i < m < k ==> IsSpace(s[m])) && (s[k] == '}' || s[k] == ']')
  }

  /** The character belongs to such a comma or to the space behind it. */
  ghost predicate Dropped(s: string, j: nat) {
    exists i: nat, k: nat :: i <= j < k && Trailing(s, i, k)
  }

  /** The characters from i on that do not. */
  ghost function KeptFrom(s: string, i: nat): string
    decreases |s| - i
  {
    if i >= |s| then "" else (if Dropped(s, i) then [] else [s[i]]) + KeptFrom(s, i + 1)
  }

  lemma {:induction false} SkipsTo(s: string, i: nat, k: nat)
    requires i <= k < |s| && !IsSpace(s[k]) && forall m :: i <= m < k ==> IsSpace(s[m])
    ensures SkipSpace(s, i) == k
    decreases k - i
  {
    if i < k {
      SkipsTo(s, i + 1, k);
    }
  }

  lemma CommaIsTrailing(s: string, i: nat)
    ensures CommaAt(s, i) ==> Trailing(s, i, SkipSpace(s, i + 1))
    ensures forall k: nat :: Trailing(s, i, k) ==> CommaAt(s, i) && k == SkipSpace(s, i + 1)
  {
    if CommaAt(s, i) {
      forall m: nat | i < m < SkipSpace(s, i + 1) ensures IsSpace(s[m]) {
        SkipStops(s, i + 1, m);
      }
    }
    forall k: nat | Trailing(s, i, k) ensures CommaAt(s, i) && k == SkipSpace(s, i + 1) {
      SkipsTo(s, i + 1, k);
    }
  }

  /** Nothing that starts before i reaches beyond it. */
  ghost predicate Settled(s: string, i: nat) {
    forall j: nat, k: nat :: j < i && Trailing(s, j, k) ==> k < i
  }

  lemma AllDropped(s: string, i: nat, k: nat)
    requires Trailing(s, i, k)
    ensures KeptFrom(s, i) == KeptFrom(s, k)
  {
    hide Dropped, Trailing, KeptFrom;
    TrailingSpan(s, i, k);
    for j := i to k
      invariant KeptFrom(s, i) == KeptFrom(s, j)
    {
      DroppedHere(s, i, k, j);
    }
  }

  lemma DroppedHere(s: string, i: nat, k: nat, j: nat)
    requires Trailing(s, i, k) && i <= j < k
    ensures j < |s| && Dropped(s, j) && KeptFrom(s, j) == KeptFrom(s, j + 1)
  {
    assert j < |s|;
    hide Trailing;
    assert Dropped(s, j);
    assert [] + KeptFrom(s, j + 1) == KeptFrom(s, j + 1);
  }

  lemma {:induction false} DropFromExactly(s: string, i: nat)
    requires Settled(s, i)
    ensures DropFrom(s, i) == KeptFrom(s, i)
    decreases |s| - i
  {
    if i < |s| {
      hide CommaAt, Settled, KeptFrom, DropFrom, SkipSpace;
      if CommaAt(s, i) {
        CommaStep(s, i);
        DropFromExactly(s, SkipSpace(s, i + 1) + 1);
      } else {
        PlainStep(s, i);
        DropFromExactly(s, i + 1);
      }
    }
  }

  lemma CommaStep(s: string, i: nat)
    requires CommaAt(s, i)
    ensures var k := SkipSpace(s, i + 1);
      i < k < |s| && Settled(s, k + 1) && KeptFrom(s, i) == [s[k]] + KeptFrom(s, k + 1) &&
      DropFrom(s, i) == [s[k]] + DropFrom(s, k + 1)
  {
    CommaIsTrailing(s, i);
    var k := SkipSpace(s, i + 1);
    TakesCloser(s, i);
    hide CommaAt, DropFrom, SkipSpace, Trailing;
    CloserStays(s, i, k);
    AllDropped(s, i, k);
    assert i < k by { TrailingSpan(s, i, k); }
  }

  lemma TrailingSpan(s: string, i: nat, k: nat)
    requires Trailing(s, i, k)
    ensures i < k < |s|
  {
  }

  lemma PlainStep(s: string, i: nat)
    requires Settled(s, i) && i < |s| && !CommaAt(s, i)
    ensures Settled(s, i + 1) && KeptFrom(s, i) == [s[i]] + KeptFrom(s, i + 1) &&
      DropFrom(s, i) == [s[i]] + DropFrom(s, i + 1)
  {
    CommaIsTrailing(s, i);
    hide Trailing, CommaAt, SkipSpace;
    StaysHere(s, i);
    TakesThis(s, i);
  }

  lemma TakesThis(s: string, i: nat)
    requires i < |s| && !CommaAt(s, i)
    ensures DropFrom(s, i) == [s[i]] + DropFrom(s, i + 1)
  {
    hide CommaAt;
  }

  lemma TakesCloser(s: string, i: nat)
    requires CommaAt(s, i)
    ensures var k := SkipSpace(s, i + 1); k < |s| && DropFrom(s, i) == [s[k]] + DropFrom(s, k + 1)
  {
  }

  lemma CloserStays(s: string, i: nat, k: nat)
    requires Trailing(s, i, k)
    ensures Settled(s, k + 1) && KeptFrom(s, k) == [s[k]] + KeptFrom(s, k + 1)
  {
    assert !Dropped(s, k);
  }

  lemma StaysHere(s: string, i: nat)
    requires Settled(s, i) && i < |s| && forall k: nat :: !Trailing(s, i, k)
    ensures Settled(s, i + 1) && KeptFrom(s, i) == [s[i]] + KeptFrom(s, i + 1)
  {
    hide Trailing;
    assert !Dropped(s, i);
  }

  /** For every text: what goes is each comma that only white space parts from a closing bracket, with that white
      space, and all else stays in order. */
  lemma DropExactly(s: string)
    ensures DropCommas(s) == KeptFrom(s, 0)
  {
    DropFromExactly(s, 0);
  }
}
