/** Heading paths of backend/app/services/knowledge_service.py: _split_sections on the text
    before each heading, the headings, and the text after the last. */
module Headings {
  import opened Options
  import opened PyText

  type Level = n: nat | 1 <= n <= 6 witness 1

  /** A heading of level 1 to 6, and the text between it and the heading before. */
  datatype Block = Block(before: string, level: Level, heading: string)

  datatype Section = Section(path: Option<string>, text: string)

  function Title(b: Block): string {
    if b.heading == "" then "Untitled Section" else b.heading
  }

  function Path(stack: seq<string>): Option<string> {
    if Join(stack, " > ") == "" then None else Some(Join(stack, " > "))
  }

  // ----- the stack, by the indices of the headings on it --------------------------------------

  function Cut(stack: seq<nat>, n: nat): seq<nat> {
    if |stack| <= n then stack else stack[..n]
  }

  /** The headings on the stack after these blocks: entries are popped down to one less than the level. */
  function Stack(blocks: seq<Block>): seq<nat>
  {
    if blocks == [] then []
    else
      var n := |blocks| - 1;
      Cut(Stack(blocks[..n]), blocks[n].level - 1) + [n]
  }

  predicate Below(stack: seq<nat>, n: nat) {
    forall i :: 0 <= i < |stack| ==> stack[i] < n
  }

  function Titles(blocks: seq<Block>, stack: seq<nat>): (r: seq<string>)
    requires Below(stack, |blocks|)
    ensures |r| == |stack| && forall i :: 0 <= i < |stack| ==> r[i] == Title(blocks[stack[i]])
  {
    seq(|stack|, i requires 0 <= i < |stack| => Title(blocks[stack[i]]))
  }

  ghost predicate Increasing(stack: seq<nat>, bound: nat) {
    (forall i, j :: 0 <= i < j < |stack| ==> stack[i] < stack[j]) && forall i :: 0 <= i < |stack| ==> stack[i] < bound
  }

  lemma CutIncreases(stack: seq<nat>, bound: nat, n: nat)
    requires Increasing(stack, bound)
    ensures Increasing(Cut(stack, n) + [bound], bound + 1)
  {
  }

  /** The stack lists headings in the order they were seen, none twice, the last one on top, and never
      more of them than the level of the last heading. */
  lemma {:induction false} StackIsSubsequence(blocks: seq<Block>)
    ensures Increasing(Stack(blocks), |blocks|)
    ensures blocks != [] ==> 0 < |Stack(blocks)| <= blocks[|blocks| - 1].level
    ensures blocks != [] ==> Stack(blocks)[|Stack(blocks)| - 1] == |blocks| - 1
  {
    if blocks != [] {
      hide Stack, Increasing;
      var n := |blocks| - 1;
      StackIsSubsequence(blocks[..n]);
      StackTop(blocks);
      CutIncreases(Stack(blocks[..n]), n, blocks[n].level - 1);
    }
  }

  // ----- the ancestors, by their meaning ---------------------------------------------------------

  /** No heading since has been of its level or a higher one. */
  predicate Open(blocks: seq<Block>, i: nat) {
    i < |blocks| && forall j :: i < j < |blocks| ==> blocks[j].level > blocks[i].level
  }

  function OpenBelow(blocks: seq<Block>, n: nat): seq<nat>
    requires n <= |blocks|
  {
    if n == 0 then [] else OpenBelow(blocks, n - 1) + (if Open(blocks, n - 1) then [n - 1] else [])
  }

  /** The chain of headings a following text stands under. */
  function Ancestors(blocks: seq<Block>): seq<nat> {
    OpenBelow(blocks, |blocks|)
  }

  lemma {:induction false} OpenBelowMember(blocks: seq<Block>, n: nat, i: nat)
    requires n <= |blocks|
    ensures i in OpenBelow(blocks, n) <==> i < n && Open(blocks, i)
  {
    if n > 0 {
      OpenBelowMember(blocks, n - 1, i);
    }
  }

  lemma {:induction false} OpenBelowIncreasing(blocks: seq<Block>, n: nat)
    requires n <= |blocks|
    ensures Increasing(OpenBelow(blocks, n), n)
  {
    if n > 0 {
      OpenBelowIncreasing(blocks, n - 1);
    }
  }

  /** Their levels grow. */
  lemma LevelsGrow(blocks: seq<Block>, i: nat, j: nat)
    requires i < j < |Ancestors(blocks)|
    ensures Ancestors(blocks)[i] < Ancestors(blocks)[j] < |blocks|
    ensures blocks[Ancestors(blocks)[i]].level < blocks[Ancestors(blocks)[j]].level
  {
    var a := Ancestors(blocks);
    OpenBelowIncreasing(blocks, |blocks|);
    assert a[i] in a;
    OpenBelowMember(blocks, |blocks|, a[i]);
  }

  /** How many of the ancestors are of a level below this one. */
  function Above(blocks: seq<Block>, chain: seq<nat>, level: nat): (n: nat)
    requires forall i :: 0 <= i < |chain| ==> chain[i] < |blocks|
    ensures n <= |chain|
  {
    if chain == [] then 0
    else Above(blocks, chain[..|chain| - 1], level) + (if blocks[chain[|chain| - 1]].level < level then 1 else 0)
  }

  ghost predicate Growing(blocks: seq<Block>, chain: seq<nat>) {
    (forall i :: 0 <= i < |chain| ==> chain[i] < |blocks|) &&
    forall i, j :: 0 <= i < j < |chain| ==> blocks[chain[i]].level < blocks[chain[j]].level
  }

  /** With growing levels they are a prefix, and at most level - 1 of them. */
  lemma {:induction false} AboveIsPrefix(blocks: seq<Block>, chain: seq<nat>, level: nat)
    requires Growing(blocks, chain) && level >= 1
    ensures Above(blocks, chain, level) <= level - 1
    ensures forall i :: 0 <= i < |chain| ==> (blocks[chain[i]].level < level <==> i < Above(blocks, chain, level))
    ensures |chain| > 0 ==> |chain| <= blocks[chain[|chain| - 1]].level
  {
    if chain != [] {
      var front := chain[..|chain| - 1];
      AboveIsPrefix(blocks, front, level);
      var last := blocks[chain[|chain| - 1]].level;
      assert |front| > 0 ==> blocks[chain[|chain| - 2]].level < last;
    }
  }

  lemma AncestorsGrowing(blocks: seq<Block>)
    ensures Growing(blocks, Ancestors(blocks))
  {
    OpenBelowIncreasing(blocks, |blocks|);
    var a := Ancestors(blocks);
    forall i, j | 0 <= i < j < |a| ensures blocks[a[i]].level < blocks[a[j]].level {
      LevelsGrow(blocks, i, j);
    }
  }

  // ----- one heading more -------------------------------------------------------------------------

  lemma OpenSnoc(blocks: seq<Block>, b: Block, i: nat)
    requires i < |blocks|
    ensures Open(blocks + [b], i) <==> Open(blocks, i) && blocks[i].level < b.level
  {
    var more := blocks + [b];
    assert more[|blocks|] == b;
    if Open(blocks, i) && blocks[i].level < b.level {
      assert forall j :: i < j < |more| ==> more[j].level > more[i].level;
    }
    if Open(more, i) {
      forall j | i < j < |blocks| ensures blocks[j].level > blocks[i].level {
        assert more[j] == blocks[j];
      }
    }
  }

  lemma {:induction false} OpenBelowSnoc(blocks: seq<Block>, b: Block, n: nat, k: nat)
    requires n <= |blocks|
    requires forall i :: 0 <= i < |OpenBelow(blocks, n)| ==> OpenBelow(blocks, n)[i] < |blocks|
    requires k <= |OpenBelow(blocks, n)|
    requires forall i :: 0 <= i < |OpenBelow(blocks, n)| ==> (blocks[OpenBelow(blocks, n)[i]].level < b.level <==> i < k)
    ensures OpenBelow(blocks + [b], n) == OpenBelow(blocks, n)[..k]
  {
    hide Open;
    if n > 0 {
      var before, chain := OpenBelow(blocks, n - 1), OpenBelow(blocks, n);
      assert forall i :: 0 <= i < |before| ==> before[i] == chain[i];
      OpenSnoc(blocks, b, n - 1);
      var k' := if k <= |before| then k else |before|;
      OpenBelowSnoc(blocks, b, n - 1, k');
      CutStep(before, chain, k, n - 1);
      assert Open(blocks, n - 1) ==> chain[|before|] == n - 1;
    }
  }

  lemma CutStep(before: seq<nat>, chain: seq<nat>, k: nat, x: nat)
    requires chain == before || chain == before + [x]
    requires k <= |chain|
    ensures k <= |before| ==> chain[..k] == before[..k]
    ensures k > |before| ==> chain[..k] == before[..|before|] + [x]
  {
  }

  /** A new heading keeps exactly the ancestors of smaller level. */
  lemma AncestorsSnoc(blocks: seq<Block>, b: Block)
    ensures Growing(blocks, Ancestors(blocks))
    ensures Ancestors(blocks + [b]) == Ancestors(blocks)[..Above(blocks, Ancestors(blocks), b.level)] + [|blocks|]
  {
    assert (blocks + [b])[|blocks|] == b;
    AncestorsGrowing(blocks);
    AboveIsPrefix(blocks, Ancestors(blocks), b.level);
    OpenBelowSnoc(blocks, b, |blocks|, Above(blocks, Ancestors(blocks), b.level));
  }

  /** The heading closes no ancestor, or an ancestor of every smaller level is open. */
  ghost predicate Nests(blocks: seq<Block>, b: Block)
    requires Growing(blocks, Ancestors(blocks))
  {
    var a := Ancestors(blocks);
    Above(blocks, a, b.level) == |a| || Above(blocks, a, b.level) == b.level - 1
  }

  lemma SnocParts(blocks: seq<Block>, b: Block)
    ensures (blocks + [b])[..|blocks|] == blocks && (blocks + [b])[|blocks|] == b
  {
  }

  lemma StackSnoc(blocks: seq<Block>, b: Block)
    ensures Stack(blocks + [b]) == Cut(Stack(blocks), b.level - 1) + [|blocks|]
  {
    hide Stack, Cut;
    SnocParts(blocks, b);
    StackTop(blocks + [b]);
  }

  lemma StackTop(blocks: seq<Block>)
    requires blocks != []
    ensures Stack(blocks) == Cut(Stack(blocks[..|blocks| - 1]), blocks[|blocks| - 1].level - 1) + [|blocks| - 1]
  {
  }

  lemma StepAgrees(blocks: seq<Block>, b: Block)
    requires Stack(blocks) == Ancestors(blocks)
    ensures Growing(blocks, Ancestors(blocks))
    ensures Stack(blocks + [b]) == Ancestors(blocks + [b]) <==> Nests(blocks, b)
  {
    hide Stack, Ancestors;
    AncestorsSnoc(blocks, b);
    StackSnoc(blocks, b);
    assert (blocks + [b])[|blocks|] == b;
    var a := Ancestors(blocks);
    AboveIsPrefix(blocks, a, b.level);
    CutSame(a, Above(blocks, a, b.level), b.level - 1, |blocks|);
  }

  lemma CutSame(a: seq<nat>, k: nat, n: nat, top: nat)
    requires k <= |a| && k <= n
    ensures Cut(a, n) + [top] == a[..k] + [top] <==> k == |a| || k == n
  {
    assert |Cut(a, n) + [top]| == (if |a| <= n then |a| else n) + 1;
    if k == |a| || k == n {
      assert Cut(a, n) == a[..k];
    }
  }

  // ----- whole documents -----------------------------------------------------------------------------

  ghost predicate AllNest(blocks: seq<Block>)
    decreases |blocks|
  {
    blocks == [] ||
    (var n := |blocks| - 1;
     AncestorsGrowing(blocks[..n]);
     AllNest(blocks[..n]) && Nests(blocks[..n], blocks[n]))
  }

  /** The stack is the ancestor chain after every heading. */
  ghost predicate StackRight(blocks: seq<Block>)
    decreases |blocks|
  {
    Stack(blocks) == Ancestors(blocks) && (blocks != [] ==> StackRight(blocks[..|blocks| - 1]))
  }

  /** Every path lists the true ancestors exactly when each heading that closes another finds all the
      smaller levels open. */
  lemma {:induction false} RightExactlyWhenNesting(blocks: seq<Block>)
    ensures StackRight(blocks) <==> AllNest(blocks)
    decreases |blocks|
  {
    if blocks != [] {
      var n := |blocks| - 1;
      var before := blocks[..n];
      assert blocks == before + [blocks[n]];
      RightExactlyWhenNesting(before);
      if StackRight(before) {
        StepAgrees(before, blocks[n]);
      }
    }
  }

  /** A document that never skips a level: it starts at 1 and goes down one level at a time. */
  ghost predicate NeverSkips(blocks: seq<Block>) {
    (blocks != [] ==> blocks[0].level == 1) &&
    forall i, j :: 0 <= i < j < |blocks| && j == i + 1 ==> blocks[j].level <= blocks[i].level + 1
  }

  lemma PrefixNeverSkips(blocks: seq<Block>, n: nat)
    requires NeverSkips(blocks) && n <= |blocks|
    ensures NeverSkips(blocks[..n])
  {
  }

  ghost predicate Dense(blocks: seq<Block>, chain: seq<nat>) {
    forall i :: 0 <= i < |chain| ==> chain[i] < |blocks| && blocks[chain[i]].level == i + 1
  }

  lemma DenseAbove(blocks: seq<Block>, b: Block)
    requires Dense(blocks, Ancestors(blocks)) && b.level <= |Ancestors(blocks)| + 1
    ensures Growing(blocks, Ancestors(blocks)) && Above(blocks, Ancestors(blocks), b.level) == b.level - 1
  {
    hide Ancestors;
    AncestorsGrowing(blocks);
    var a := Ancestors(blocks);
    AboveIsPrefix(blocks, a, b.level);
    var k := Above(blocks, a, b.level);
    if k < |a| {
      assert blocks[a[k]].level == k + 1;
    }
  }

  lemma DenseStep(blocks: seq<Block>, b: Block)
    requires Dense(blocks, Ancestors(blocks)) && b.level <= |Ancestors(blocks)| + 1
    ensures Dense(blocks + [b], Ancestors(blocks + [b])) && |Ancestors(blocks + [b])| == b.level
  {
    hide Ancestors;
    DenseAbove(blocks, b);
    AncestorsSnoc(blocks, b);
    var more := blocks + [b];
    var a, a' := Ancestors(blocks), Ancestors(more);
    forall i | 0 <= i < |a'| ensures a'[i] < |more| && more[a'[i]].level == i + 1 {
      if i < b.level - 1 {
        assert a'[i] == a[i] && more[a[i]] == blocks[a[i]];
      } else {
        assert a'[i] == |blocks|;
      }
    }
  }

  /** In such a document the ancestors have the levels 1, 2, 3 and so on. */
  lemma {:induction false} DenseLevels(blocks: seq<Block>)
    requires NeverSkips(blocks)
    ensures Dense(blocks, Ancestors(blocks))
    ensures |Ancestors(blocks)| == if blocks == [] then 0 else blocks[|blocks| - 1].level
    decreases |blocks|
  {
    if blocks != [] {
      hide Ancestors;
      var n := |blocks| - 1;
      var before, b := blocks[..n], blocks[n];
      assert blocks == before + [b];
      PrefixNeverSkips(blocks, n);
      DenseLevels(before);
      assert n > 0 ==> b.level <= blocks[n - 1].level + 1 && blocks[n - 1] == before[n - 1];
      DenseStep(before, b);
    }
  }

  /** So its paths are right. */
  lemma {:induction false} NeverSkippingNests(blocks: seq<Block>)
    requires NeverSkips(blocks)
    ensures AllNest(blocks) && StackRight(blocks)
    decreases |blocks|
  {
    hide Ancestors;
    RightExactlyWhenNesting(blocks);
    if blocks != [] {
      var n := |blocks| - 1;
      var before, b := blocks[..n], blocks[n];
      PrefixNeverSkips(blocks, n);
      NeverSkippingNests(before);
      DenseLevels(before);
      assert n > 0 ==> b.level <= blocks[n - 1].level + 1 && blocks[n - 1] == before[n - 1];
      DenseAbove(before, b);
      assert Nests(before, b);
    }
  }

  /** A skipped level that is met again: the second h3 stands under the first. */
  lemma SkippedLevelNestsWrongly(x: string, y: string, z: string)
    ensures var blocks := [Block("", 1, x), Block("", 3, y), Block("", 3, z)];
      Stack(blocks) == [0, 1, 2] && Ancestors(blocks) == [0, 2]
  {
    var blocks := [Block("", 1, x), Block("", 3, y), Block("", 3, z)];
    assert blocks[..2] == [Block("", 1, x), Block("", 3, y)];
    assert blocks[..2][..1] == [Block("", 1, x)];
    assert Stack(blocks[..2][..1]) == [0];
    assert Stack(blocks[..2]) == [0, 1];
    assert Open(blocks, 0) && !Open(blocks, 1) && Open(blocks, 2);
    assert OpenBelow(blocks, 1) == [0];
    assert OpenBelow(blocks, 2) == [0];
  }

  // ----- sections --------------------------------------------------------------------------------------

  /** Segment i of the text: before heading i, or after the last one. */
  function Segment(blocks: seq<Block>, tail: string, i: nat): string
    requires i <= |blocks|
  {
    if i < |blocks| then blocks[i].before else tail
  }

  /** The path of a text that follows these headings. */
  function PathOf(blocks: seq<Block>): Option<string> {
    StackIsSubsequence(blocks);
    Path(Titles(blocks, Stack(blocks)))
  }

  function SectionsUpTo(blocks: seq<Block>, tail: string, n: nat): seq<Section>
    requires n <= |blocks| + 1
  {
    if n == 0 then []
    else
      SectionsUpTo(blocks, tail, n - 1) +
      (if Segment(blocks, tail, n - 1) == "" then [] else [Section(PathOf(blocks[..n - 1]), Segment(blocks, tail, n - 1))])
  }

  /** _split_sections; whole is the text of everything, headings included, used when nothing else is. */
  function SplitSections(blocks: seq<Block>, tail: string, whole: string): (Option<string>, seq<Section>) {
    var sections := SectionsUpTo(blocks, tail, |blocks| + 1);
    (if blocks == [] then None else Some(Title(blocks[0])),
     if sections == [] && whole != "" then [Section(None, whole)] else sections)
  }

  /** The loop that pops the stack and pushes the heading. */
  method PushHeading(stack: seq<string>, level: Level, title: string) returns (r: seq<string>)
    ensures r == (if |stack| <= level - 1 then stack else stack[..level - 1]) + [title]
  {
    r := stack;
    while |r| >= level
      invariant r == stack[..|r|] && |r| <= |stack|
      invariant |r| >= level - 1 || r == stack
    {
      r := r[..|r| - 1];
    }
    r := r + [title];
  }

  lemma TitlesPush(blocks: seq<Block>, n: nat)
    requires n < |blocks|
    ensures Below(Stack(blocks[..n]), n) && Below(Stack(blocks[..n + 1]), n + 1)
    ensures var stack, level := Titles(blocks[..n], Stack(blocks[..n])), blocks[n].level;
      Titles(blocks[..n + 1], Stack(blocks[..n + 1])) ==
      (if |stack| <= level - 1 then stack else stack[..level - 1]) + [Title(blocks[n])]
  {
    hide Stack;
    StackIsSubsequence(blocks[..n]);
    StackIsSubsequence(blocks[..n + 1]);
    assert blocks[..n + 1] == blocks[..n] + [blocks[n]];
    StackSnoc(blocks[..n], blocks[n]);
  }

  method SplitIntoSections(blocks: seq<Block>, tail: string, whole: string) returns (title: Option<string>, sections: seq<Section>)
    ensures (title, sections) == SplitSections(blocks, tail, whole)
  {
    hide Stack, Path, Title;
    sections := [];
    var stack: seq<string> := [];
    title := None;
    EmptyStack(blocks);
    for i := 0 to |blocks|
      invariant Below(Stack(blocks[..i]), i)
      invariant stack == Titles(blocks[..i], Stack(blocks[..i]))
      invariant sections == SectionsUpTo(blocks, tail, i)
      invariant title == if i == 0 then None else Some(Title(blocks[0]))
    {
      if blocks[i].before != "" {
        sections := sections + [Section(Path(stack), blocks[i].before)];
      }
      if title.None? {
        title := Some(Title(blocks[i]));
      }
      TitlesPush(blocks, i);
      stack := PushHeading(stack, blocks[i].level, Title(blocks[i]));
    }
    assert SectionsUpTo(blocks, tail, |blocks| + 1) ==
      SectionsUpTo(blocks, tail, |blocks|) + (if tail == "" then [] else [Section(PathOf(blocks[..|blocks|]), tail)]);
    if tail != "" {
      sections := sections + [Section(Path(stack), tail)];
    }
    if sections == [] && whole != "" {
      sections := [Section(None, whole)];
    }
    assert title == SplitSections(blocks, tail, whole).0 && sections == SplitSections(blocks, tail, whole).1;
  }

  lemma EmptyStack(blocks: seq<Block>)
    ensures Stack(blocks[..0]) == [] && Titles(blocks[..0], []) == []
  {
  }

  /** How many segments before number n hold text. */
  function Rank(blocks: seq<Block>, tail: string, n: nat): nat
    requires n <= |blocks| + 1
  {
    if n == 0 then 0 else Rank(blocks, tail, n - 1) + (if Segment(blocks, tail, n - 1) == "" then 0 else 1)
  }

  lemma {:induction false} SectionAt(blocks: seq<Block>, tail: string, n: nat, i: nat)
    requires i < n <= |blocks| + 1
    ensures |SectionsUpTo(blocks, tail, n)| == Rank(blocks, tail, n)
    ensures Segment(blocks, tail, i) != "" ==>
      Rank(blocks, tail, i) < Rank(blocks, tail, n) &&
      SectionsUpTo(blocks, tail, n)[Rank(blocks, tail, i)] == Section(PathOf(blocks[..i]), Segment(blocks, tail, i))
  {
    hide PathOf;
    if i < n - 1 {
      SectionAt(blocks, tail, n - 1, i);
    } else {
      SectionsLength(blocks, tail, n - 1);
    }
  }

  lemma {:induction false} SectionsLength(blocks: seq<Block>, tail: string, n: nat)
    requires n <= |blocks| + 1
    ensures |SectionsUpTo(blocks, tail, n)| == Rank(blocks, tail, n)
  {
    hide PathOf;
    if n > 0 {
      SectionsLength(blocks, tail, n - 1);
    }
  }

  /** Every segment that holds text is a section, once and in its place among them, under the path of
      the headings before it; there are no other sections unless no segment holds text. */
  lemma EverySegmentOnce(blocks: seq<Block>, tail: string, whole: string, i: nat)
    requires i <= |blocks|
    ensures var sections := SplitSections(blocks, tail, whole).1;
      (Segment(blocks, tail, i) != "" ==>
        |sections| == Rank(blocks, tail, |blocks| + 1) && Rank(blocks, tail, i) < |sections| &&
        sections[Rank(blocks, tail, i)] == Section(PathOf(blocks[..i]), Segment(blocks, tail, i)))
  {
    hide PathOf;
    SectionAt(blocks, tail, |blocks| + 1, i);
  }

  lemma AllEmpty(blocks: seq<Block>, tail: string, n: nat)
    requires n <= |blocks| + 1 && forall i: nat :: i < n ==> Segment(blocks, tail, i) == ""
    ensures Rank(blocks, tail, n) == 0
  {
    if n > 0 {
      assert Segment(blocks, tail, n - 1) == "";
      AllEmpty(blocks, tail, n - 1);
    }
  }

  /** Without any text between headings the whole text is the one section, if there is any. */
  lemma FallsBackToWhole(blocks: seq<Block>, tail: string, whole: string)
    requires forall i: nat :: i <= |blocks| ==> Segment(blocks, tail, i) == ""
    ensures SplitSections(blocks, tail, whole).1 == if whole == "" then [] else [Section(None, whole)]
  {
    AllEmpty(blocks, tail, |blocks| + 1);
    SectionsLength(blocks, tail, |blocks| + 1);
  }

  lemma OpenTitles(blocks: seq<Block>)
    ensures Below(Ancestors(blocks), |blocks|)
  {
    AncestorsGrowing(blocks);
  }

  lemma {:induction false} RightBefore(blocks: seq<Block>, n: nat)
    requires n <= |blocks| && StackRight(blocks)
    ensures StackRight(blocks[..n])
    decreases |blocks|
  {
    if n == |blocks| {
      assert blocks[..n] == blocks;
    } else {
      assert blocks[..|blocks| - 1][..n] == blocks[..n];
      RightBefore(blocks[..|blocks| - 1], n);
    }
  }

  /** In a document whose headings nest, every section's path lists the true ancestors. */
  lemma PathsAreAncestors(blocks: seq<Block>, i: nat)
    requires AllNest(blocks) && i <= |blocks|
    ensures Below(Ancestors(blocks[..i]), i)
    ensures PathOf(blocks[..i]) == Path(Titles(blocks[..i], Ancestors(blocks[..i])))
  {
    RightExactlyWhenNesting(blocks);
    RightBefore(blocks, i);
    OpenTitles(blocks[..i]);
  }
}
