/** The overlapping word chunker of backend/app/services/knowledge_service.py. */
module Chunker {
  import opened Options
  import opened PyText

  // ----- split() and " ".join() ---------------------------------------------------------------

  function WordEnd(s: string): (k: nat)
    ensures k <= |s| && (k < |s| ==> IsSpace(s[k])) && forall i :: 0 <= i < k ==> !IsSpace(s[i])
  {
    if s == "" || IsSpace(s[0]) then 0
    else
      var k := WordEnd(s[1..]);
      assert forall i :: 0 < i <= k ==> s[i] == s[1..][i - 1];
      1 + k
  }

  function SkipSpaces(s: string): (k: nat)
    ensures k <= |s| && (k < |s| ==> !IsSpace(s[k]))
  {
    if s == "" || !IsSpace(s[0]) then 0 else 1 + SkipSpaces(s[1..])
  }

  function Split(s: string): seq<string>
    decreases |s|
  {
    var t := s[SkipSpaces(s)..];
    if t == "" then []
    else
      assert t[0] == s[SkipSpaces(s)];
      [t[..WordEnd(t)]] + Split(t[WordEnd(t)..])
  }

  predicate IsWord(w: string) {
    w != "" && forall i :: 0 <= i < |w| ==> !IsSpace(w[i])
  }

  ghost predicate AllWords(words: seq<string>) {
    forall i :: 0 <= i < |words| ==> IsWord(words[i])
  }

  lemma {:induction false} SplitWords(s: string)
    ensures AllWords(Split(s))
    decreases |s|
  {
    var t := s[SkipSpaces(s)..];
    if t != "" {
      assert t[0] == s[SkipSpaces(s)];
      SplitWords(t[WordEnd(t)..]);
    }
  }

  lemma SplitStep(s: string, w: string, rest: string)
    requires s == w + rest && IsWord(w) && (rest == "" || IsSpace(rest[0]))
    ensures SkipSpaces(s) == 0 && WordEnd(s) == |w| && s[..|w|] == w && s[|w|..] == rest
  {
    hide WordEnd;
    assert s[0] == w[0];
    assert forall i :: 0 <= i < |w| ==> s[i] == w[i];
    assert |w| < |s| ==> s[|w|] == rest[0];
  }

  lemma SplitFirst(w: string, rest: string)
    requires IsWord(w) && (rest == "" || IsSpace(rest[0]))
    ensures Split(w + rest) == [w] + Split(rest)
  {
    hide WordEnd, SkipSpaces;
    var s := w + rest;
    SplitStep(s, w, rest);
    assert s[0..] == s;
  }

  lemma SplitSpace(s: string)
    ensures Split(" " + s) == Split(s)
  {
    var x := " " + s;
    assert x[0] == ' ' && x[1..] == s;
    var k := SkipSpaces(s);
    assert SkipSpaces(x) == 1 + k;
    assert x[1 + k..] == s[k..];
  }

  /** Splitting joined words gives the words back. */
  lemma {:induction false} SplitJoin(words: seq<string>)
    requires AllWords(words)
    ensures Split(Join(words, " ")) == words
  {
    hide Split;
    if words == [] {
      SplitNothing();
    } else if |words| == 1 {
      SplitNothing();
      SplitFirst(words[0], "");
      assert words[0] + "" == words[0] && words == [words[0]];
    } else {
      SplitJoin(words[1..]);
      SplitFirst(words[0], " " + Join(words[1..], " "));
      SplitSpace(Join(words[1..], " "));
      assert words == [words[0]] + words[1..];
    }
  }

  lemma SplitNothing()
    ensures Split("") == []
  {
  }

  /** The text is these words, each a run without space, with space between any two of them and nothing
      but space otherwise. */
  ghost predicate Spaced(text: string, words: seq<string>)
    decreases |words|
  {
    if words == [] then AllSpace(text)
    else
      exists gap, rest :: text == gap + (words[0] + rest) && AllSpace(gap) && IsWord(words[0]) &&
        (rest != "" ==> IsSpace(rest[0])) && Spaced(rest, words[1..])
  }

  lemma {:induction false} SkippedSpaces(s: string)
    ensures AllSpace(s[..SkipSpaces(s)])
  {
    if s != "" && IsSpace(s[0]) {
      SkippedSpaces(s[1..]);
      assert s[..SkipSpaces(s)] == [s[0]] + s[1..][..SkipSpaces(s[1..])];
    }
  }

  /** The first word and what is before and after it. */
  lemma SplitParts(s: string) returns (gap: string, w: string, rest: string)
    requires !AllSpace(s)
    ensures s == gap + (w + rest) && AllSpace(gap) && IsWord(w) && (rest != "" ==> IsSpace(rest[0]))
    ensures |rest| < |s| && Split(s) == [w] + Split(rest)
  {
    SkippedSpaces(s);
    var t := s[SkipSpaces(s)..];
    gap := s[..SkipSpaces(s)];
    assert s == gap + t;
    assert t == "" ==> gap == s;
    assert t[0] == s[SkipSpaces(s)];
    w, rest := t[..WordEnd(t)], t[WordEnd(t)..];
    assert t == w + rest;
  }

  lemma SplitBlank(s: string)
    requires AllSpace(s)
    ensures Split(s) == []
  {
    SplitGap(s, "");
    SplitNothing();
    assert s + "" == s;
  }

  lemma {:induction false} SplitSpaced(s: string)
    ensures Spaced(s, Split(s))
    decreases |s|
  {
    hide Split, AllSpace, IsWord;
    if AllSpace(s) {
      SplitBlank(s);
    } else {
      var gap, w, rest := SplitParts(s);
      SplitSpaced(rest);
      hide Spaced;
      SpacedMore(s, gap, w, rest, Split(rest));
    }
  }

  lemma SpacedMore(s: string, gap: string, w: string, rest: string, words: seq<string>)
    requires s == gap + (w + rest) && AllSpace(gap) && IsWord(w) && (rest != "" ==> IsSpace(rest[0])) && Spaced(rest, words)
    ensures Spaced(s, [w] + words)
  {
    hide AllSpace, IsWord;
    assert ([w] + words)[1..] == words;
  }

  lemma {:induction false} SplitGap(gap: string, s: string)
    requires AllSpace(gap)
    ensures Split(gap + s) == Split(s)
    decreases |gap|
  {
    if gap == "" {
      assert gap + s == s;
    } else {
      var x := gap[1..] + s;
      assert gap + s == [gap[0]] + x;
      SplitGap(gap[1..], s);
      assert ([gap[0]] + x)[1..] == x;
      var k := SkipSpaces(x);
      assert SkipSpaces([gap[0]] + x) == 1 + k;
      assert ([gap[0]] + x)[1 + k..] == x[k..];
    }
  }

  /** Splitting gives the words that a text is spaced into, and there are no others. */
  lemma {:induction false} SplitExactly(s: string, words: seq<string>)
    ensures Spaced(s, words) <==> words == Split(s)
    decreases |words|
  {
    hide Split, SkipSpaces, WordEnd;
    SplitSpaced(s);
    if Spaced(s, words) {
      if words == [] {
        SplitBlank(s);
      } else {
        var gap, rest :| s == gap + (words[0] + rest) && AllSpace(gap) && IsWord(words[0]) &&
          (rest != "" ==> IsSpace(rest[0])) && Spaced(rest, words[1..]);
        SplitGap(gap, words[0] + rest);
        SplitFirst(words[0], rest);
        SplitExactly(rest, words[1..]);
      }
    }
  }

  // ----- the windows --------------------------------------------------------------------------------

  function Min(a: nat, b: nat): nat {
    if a <= b then a else b
  }

  /** The windows from one start on. */
  function Windows(words: seq<string>, max: nat, overlap: nat, start: nat): seq<seq<string>>
    requires overlap < max && start < |words|
    decreases |words| - start
  {
    var end := Min(start + max, |words|);
    [words[start..end]] + (if end == |words| then [] else Windows(words, max, overlap, end - overlap))
  }

  function Chunks(words: seq<string>, max: nat, overlap: nat): seq<seq<string>>
    requires overlap < max || |words| <= max
  {
    if words == [] then [] else if |words| <= max then [words] else Windows(words, max, overlap, 0)
  }

  function JoinAll(chunks: seq<seq<string>>): (r: seq<string>)
    ensures |r| == |chunks| && forall i :: 0 <= i < |chunks| ==> r[i] == Join(chunks[i], " ")
  {
    seq(|chunks|, i requires 0 <= i < |chunks| => Join(chunks[i], " "))
  }

  lemma WindowStep(words: seq<string>, max: nat, overlap: nat, start: nat)
    requires overlap < max && start < |words|
    ensures var end := Min(start + max, |words|);
      Windows(words, max, overlap, start) ==
      [words[start..end]] + (if end == |words| then [] else Windows(words, max, overlap, end - overlap))
  {
  }

  lemma JoinNone()
    ensures JoinAll([]) == []
  {
  }

  lemma JoinAllMore(done: seq<seq<string>>, words: seq<string>)
    ensures JoinAll(done + [words]) == JoinAll(done) + [Join(words, " ")]
  {
  }

  /** The loop of _chunk_words. */
  method ChunkLoop(words: seq<string>, maxWords: nat, overlapWords: nat) returns (chunks: seq<string>)
    requires overlapWords < maxWords && words != []
    ensures chunks == JoinAll(Windows(words, maxWords, overlapWords, 0))
  {
    hide Windows, Join, JoinAll;
    JoinNone();
    chunks := [];
    ghost var done: seq<seq<string>> := [];
    var start := 0;
    while start < |words|
      invariant 0 <= start < |words|
      invariant chunks == JoinAll(done)
      invariant Windows(words, maxWords, overlapWords, 0) == done + Windows(words, maxWords, overlapWords, start)
      decreases |words| - start
    {
      var end := Min(start + maxWords, |words|);
      ghost var window := words[start..end];
      WindowStep(words, maxWords, overlapWords, start);
      JoinAllMore(done, window);
      chunks := chunks + [Join(words[start..end], " ")];
      done := done + [window];
      if end == |words| {
        break;
      }
      start := if end >= overlapWords then end - overlapWords else 0;
    }
  }

  /** _chunk_words, where its loop ends. */
  method ChunkWords(text: string, maxWords: nat, overlapWords: nat) returns (chunks: seq<string>)
    requires overlapWords < maxWords || |Split(text)| <= maxWords
    ensures chunks == JoinAll(Chunks(Split(text), maxWords, overlapWords))
  {
    hide Windows, Join, Split;
    var words := Split(text);
    if words == [] {
      return [];
    }
    if |words| <= maxWords {
      return [Join(words, " ")];
    }
    chunks := ChunkLoop(words, maxWords, overlapWords);
  }

  // ----- what the windows are --------------------------------------------------------------------------

  /** a / b rounded up. */
  function Ceil(a: nat, b: nat): nat
    requires b > 0
  {
    if a == 0 then 0 else if a <= b then 1 else 1 + Ceil(a - b, b)
  }

  lemma Product(k: nat, b: nat)
    ensures (k + 1) * b == k * b + b
  {
  }

  /** The least number of steps of size b that covers a. */
  lemma {:induction false} CeilIsLeast(a: nat, b: nat)
    requires b > 0
    ensures Ceil(a, b) * b >= a && (a > 0 ==> Ceil(a, b) > 0 && (Ceil(a, b) - 1) * b < a)
    ensures a == 0 ==> Ceil(a, b) == 0
  {
    if a > b {
      CeilIsLeast(a - b, b);
      Product(Ceil(a - b, b), b);
      Product(Ceil(a - b, b) - 1, b);
    } else if a > 0 {
      assert 1 * b == b && 0 * b == 0;
    }
  }

  /** Where chunk i starts. */
  function StartOf(max: nat, overlap: nat, i: nat): nat
    requires overlap < max
  {
    if i == 0 then 0 else StartOf(max, overlap, i - 1) + (max - overlap)
  }

  /** Window i, directly. */
  lemma {:induction false} WindowAt(words: seq<string>, max: nat, overlap: nat, start: nat, i: nat)
    requires overlap < max && start < |words| && i < |Windows(words, max, overlap, start)|
    ensures var from := start + StartOf(max, overlap, i);
      (from < |words| && Windows(words, max, overlap, start)[i] == words[from..Min(from + max, |words|)] &&
       (i + 1 < |Windows(words, max, overlap, start)| <==> from + max < |words|))
    decreases |words| - start
  {
    hide Windows;
    WindowStep(words, max, overlap, start);
    var end := Min(start + max, |words|);
    if i > 0 {
      WindowAt(words, max, overlap, end - overlap, i - 1);
    } else if end < |words| {
      WindowStep(words, max, overlap, end - overlap);
    }
  }

  lemma {:induction false} WindowCount(words: seq<string>, max: nat, overlap: nat, start: nat)
    requires overlap < max && start < |words|
    ensures |Windows(words, max, overlap, start)| ==
      1 + (if start + max < |words| then Ceil(|words| - start - max, max - overlap) else 0)
    decreases |words| - start
  {
    if start + max < |words| {
      WindowCount(words, max, overlap, start + max - overlap);
    }
  }

  /** For a text longer than one window: the number of chunks. */
  lemma ChunkCount(words: seq<string>, max: nat, overlap: nat)
    requires overlap < max < |words|
    ensures |Chunks(words, max, overlap)| == 1 + Ceil(|words| - max, max - overlap)
  {
    WindowCount(words, max, overlap, 0);
  }

  /** No chunk exceeds the limit, and all but the last reach it. */
  lemma ChunkSizes(words: seq<string>, max: nat, overlap: nat, i: nat)
    requires overlap < max && i < |Chunks(words, max, overlap)|
    ensures var n := |Chunks(words, max, overlap)|;
      (0 < |Chunks(words, max, overlap)[i]| <= max && (i + 1 < n ==> |Chunks(words, max, overlap)[i]| == max))
  {
    hide Windows;
    if |words| > max {
      WindowAt(words, max, overlap, 0, i);
    }
  }

  lemma Neighbours(words: seq<string>, max: nat, overlap: nat, from: nat, a: seq<string>, b: seq<string>)
    requires overlap < max && from + max < |words|
    requires a == words[from..from + max]
    requires var next := from + (max - overlap); b == words[next..Min(next + max, |words|)]
    ensures |b| > overlap && |a| == max && a[max - overlap..] == b[..overlap] && b[overlap] == words[from + max]
  {
  }

  /** Neighbours share exactly the overlap: the last words of one are the first of the next, and the
      next goes on with the word after them. */
  lemma NeighboursOverlap(words: seq<string>, max: nat, overlap: nat, i: nat)
    requires overlap < max && i + 1 < |Chunks(words, max, overlap)|
    ensures var a, b := Chunks(words, max, overlap)[i], Chunks(words, max, overlap)[i + 1];
      var end := StartOf(max, overlap, i) + max;
      (|b| > overlap && |a| == max && a[max - overlap..] == b[..overlap] && end < |words| && b[overlap] == words[end])
  {
    hide Windows;
    WindowAt(words, max, overlap, 0, i);
    WindowAt(words, max, overlap, 0, i + 1);
    Neighbours(words, max, overlap, StartOf(max, overlap, i), Windows(words, max, overlap, 0)[i],
      Windows(words, max, overlap, 0)[i + 1]);
  }

  /** Each chunk without the words it repeats, one after the other. */
  function Reassemble(chunks: seq<seq<string>>, overlap: nat): seq<string> {
    if chunks == [] then [] else chunks[0] + Continue(chunks[1..], overlap)
  }

  function Continue(chunks: seq<seq<string>>, overlap: nat): seq<string> {
    if chunks == [] then []
    else (if |chunks[0]| >= overlap then chunks[0][overlap..] else []) + Continue(chunks[1..], overlap)
  }

  lemma {:induction false} WindowsContinue(words: seq<string>, max: nat, overlap: nat, start: nat)
    requires overlap < max && start + overlap < |words|
    ensures Continue(Windows(words, max, overlap, start), overlap) == words[start + overlap..]
    decreases |words| - start
  {
    hide Windows;
    WindowStep(words, max, overlap, start);
    var end := Min(start + max, |words|);
    var w := Windows(words, max, overlap, start);
    assert w[0] == words[start..end] && w[0][overlap..] == words[start + overlap..end];
    if end < |words| {
      WindowsContinue(words, max, overlap, end - overlap);
      assert w[1..] == Windows(words, max, overlap, end - overlap);
      assert words[start + overlap..] == words[start + overlap..end] + words[end..];
    } else {
      assert w[1..] == [];
    }
  }

  /** Nothing is lost or repeated: dropping the repeated words gives the text's words back. */
  lemma ChunksReassemble(words: seq<string>, max: nat, overlap: nat)
    requires overlap < max
    ensures Reassemble(Chunks(words, max, overlap), overlap) == words
  {
    hide Windows, Continue;
    if |words| > max {
      var w := Windows(words, max, overlap, 0);
      WindowStep(words, max, overlap, 0);
      WindowsContinue(words, max, overlap, max - overlap);
      assert w[1..] == Windows(words, max, overlap, max - overlap);
      assert words == words[..max] + words[max..];
    } else if words != [] {
      assert Chunks(words, max, overlap)[1..] == [];
      NothingContinues(overlap);
    }
  }

  lemma NothingContinues(overlap: nat)
    ensures Continue([], overlap) == []
  {
  }

  function SplitAll(texts: seq<string>): (r: seq<seq<string>>)
    ensures |r| == |texts| && forall i :: 0 <= i < |texts| ==> r[i] == Split(texts[i])
  {
    seq(|texts|, i requires 0 <= i < |texts| => Split(texts[i]))
  }

  lemma ChunkIsSlice(words: seq<string>, max: nat, overlap: nat, i: nat)
    requires overlap < max && i < |Chunks(words, max, overlap)| && AllWords(words)
    ensures AllWords(Chunks(words, max, overlap)[i])
  {
    hide Windows, IsWord;
    if |words| > max {
      WindowAt(words, max, overlap, 0, i);
    }
  }

  /** The same on the stored texts: splitting the chunks again and dropping the repeated words gives
      the words of the imported text. */
  lemma TextsReassemble(text: string, max: nat, overlap: nat)
    requires overlap < max
    ensures Reassemble(SplitAll(JoinAll(Chunks(Split(text), max, overlap))), overlap) == Split(text)
  {
    var words := Split(text);
    var chunks := Chunks(words, max, overlap);
    SplitWords(text);
    forall i | 0 <= i < |chunks| ensures SplitAll(JoinAll(chunks))[i] == chunks[i] {
      ChunkIsSlice(words, max, overlap, i);
      SplitJoin(chunks[i]);
    }
    assert SplitAll(JoinAll(chunks)) == chunks;
    ChunksReassemble(words, max, overlap);
  }

  // ----- when the loop ends -------------------------------------------------------------------------------

  /** The start of the next turn, none after the break. */
  function NextStart(n: nat, max: nat, overlap: nat, start: nat): Option<nat> {
    var end := Min(start + max, n);
    if start >= n || end == n then None else Some(if end >= overlap then end - overlap else 0)
  }

  function After(n: nat, max: nat, overlap: nat, turns: nat): Option<nat> {
    if turns == 0 then Some(0)
    else
      var before := After(n, max, overlap, turns - 1);
      if before.None? then None else NextStart(n, max, overlap, before.value)
  }

  ghost predicate LoopEnds(n: nat, max: nat, overlap: nat) {
    exists turns: nat :: After(n, max, overlap, turns).None?
  }

  lemma {:induction false} StuckAtZero(n: nat, max: nat, overlap: nat, turns: nat)
    requires n > max && overlap >= max
    ensures After(n, max, overlap, turns) == Some(0)
  {
    if turns > 0 {
      StuckAtZero(n, max, overlap, turns - 1);
    }
  }

  lemma {:induction false} Advances(n: nat, max: nat, overlap: nat, turns: nat)
    requires overlap < max
    ensures After(n, max, overlap, turns).Some? ==> After(n, max, overlap, turns).value >= turns
  {
    if turns > 0 {
      Advances(n, max, overlap, turns - 1);
    }
  }

  /** On a text longer than one window the loop ends exactly when the overlap is below the limit. */
  lemma EndsExactlyWhenOverlapBelowMax(n: nat, max: nat, overlap: nat)
    requires n > max
    ensures LoopEnds(n, max, overlap) <==> overlap < max
  {
    if overlap < max {
      Advances(n, max, overlap, n + 1);
      if After(n, max, overlap, n + 1).Some? {
        Bounded(n, max, overlap, n + 1);
      }
    } else {
      forall turns: nat ensures After(n, max, overlap, turns).Some? {
        StuckAtZero(n, max, overlap, turns);
      }
    }
  }

  lemma Bounded(n: nat, max: nat, overlap: nat, turns: nat)
    requires turns > 0 && After(n, max, overlap, turns).Some?
    ensures After(n, max, overlap, turns).value <= n
  {
  }
}
