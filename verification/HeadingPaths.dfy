/** What the section paths and the title of backend/app/services/knowledge_service.py read like, character
    by character, and what can be read back from a path. */
module HeadingPaths {
  import opened Options
  import opened PyText
  import opened Headings

  /** The path begins with the first name, and each further name follows after " > ". */
  ghost predicate Spells(path: string, names: seq<string>)
    decreases |names|
  {
    names != [] &&
    if |names| == 1 then path == names[0]
    else
      var last := names[|names| - 1];
      exists front: string :: path == front + (" > " + last) && Spells(front, names[..|names| - 1])
  }

  /** What the headings with these indices are called. */
  function NamesOf(blocks: seq<Block>, chain: seq<nat>): (names: seq<string>)
    requires Below(chain, |blocks|)
    ensures |names| == |chain|
  {
    seq(|chain|, i requires 0 <= i < |chain| =>
      if |blocks[chain[i]].heading| > 0 then blocks[chain[i]].heading else "Untitled Section")
  }

  lemma {:induction false} JoinSnoc(names: seq<string>, last: string)
    requires names != []
    ensures Join(names + [last], " > ") == Join(names, " > ") + (" > " + last)
  {
    if |names| == 1 {
      assert (names + [last])[1..] == [last];
    } else {
      assert (names + [last])[1..] == names[1..] + [last];
      JoinSnoc(names[1..], last);
    }
  }

  lemma {:induction false} JoinSpells(names: seq<string>)
    requires names != []
    ensures Spells(Join(names, " > "), names)
    decreases |names|
  {
    if |names| > 1 {
      var front := names[..|names| - 1];
      JoinSpells(front);
      JoinSnoc(front, names[|names| - 1]);
      assert names == front + [names[|names| - 1]];
    }
  }

  /** Names spell one path. */
  lemma {:induction false} SpellsOnce(p: string, q: string, names: seq<string>)
    requires Spells(p, names) && Spells(q, names)
    ensures p == q
    decreases |names|
  {
    if |names| > 1 {
      var front, last := names[..|names| - 1], names[|names| - 1];
      var a :| p == a + (" > " + last) && Spells(a, front);
      var b :| q == b + (" > " + last) && Spells(b, front);
      SpellsOnce(a, b, front);
    }
  }

  lemma JoinNotEmpty(names: seq<string>)
    requires names != [] && names[0] != ""
    ensures Join(names, " > ") != ""
  {
  }

  lemma NamesAreTitles(blocks: seq<Block>, chain: seq<nat>)
    requires Below(chain, |blocks|)
    ensures NamesOf(blocks, chain) == Titles(blocks, chain)
  {
  }

  /** No path before the first heading; after it, the path spells out the headings on the stack. */
  lemma PathSpells(blocks: seq<Block>)
    ensures Below(Stack(blocks), |blocks|)
    ensures blocks == [] ==> PathOf(blocks).None?
    ensures blocks != [] ==> PathOf(blocks).Some? && Spells(PathOf(blocks).value, NamesOf(blocks, Stack(blocks)))
  {
    hide Stack, Join, Spells;
    StackIsSubsequence(blocks);
    if blocks == [] {
      assert Stack(blocks) == [] by { EmptyStack(blocks); assert blocks[..0] == blocks; }
      EmptyJoin();
    } else {
      var names := NamesOf(blocks, Stack(blocks));
      NamesAreTitles(blocks, Stack(blocks));
      JoinSpells(names);
      JoinNotEmpty(names);
    }
  }

  lemma EmptyJoin()
    ensures Join([], " > ") == ""
  {
  }

  /** Each segment with text is a section whose path is missing exactly before the first heading, and
      otherwise spells out the headings on the stack; in a document whose headings nest, those are the
      headings the text stands under. */
  lemma SectionPathsSpell(blocks: seq<Block>, tail: string, whole: string, i: nat)
    requires i <= |blocks| && Segment(blocks, tail, i) != ""
    ensures var sections := SplitSections(blocks, tail, whole).1;
      Rank(blocks, tail, i) < |sections| &&
      var section := sections[Rank(blocks, tail, i)];
      section.text == Segment(blocks, tail, i) &&
      (section.path.None? <==> i == 0) &&
      (i > 0 ==>
        Below(Stack(blocks[..i]), i) && Below(Ancestors(blocks[..i]), i) &&
        Spells(section.path.value, NamesOf(blocks[..i], Stack(blocks[..i]))) &&
        (AllNest(blocks) ==> Spells(section.path.value, NamesOf(blocks[..i], Ancestors(blocks[..i])))))
  {
    hide Spells, PathOf, Stack, Ancestors, AllNest, SplitSections, Rank;
    EverySegmentOnce(blocks, tail, whole, i);
    PathSpells(blocks[..i]);
    OpenTitles(blocks[..i]);
    if AllNest(blocks) {
      RightExactlyWhenNesting(blocks);
      RightBefore(blocks, i);
      StackIsAncestors(blocks[..i]);
    }
  }

  lemma StackIsAncestors(blocks: seq<Block>)
    requires StackRight(blocks)
    ensures Stack(blocks) == Ancestors(blocks)
  {
  }

  /** The title is what the first heading is called; a document without headings has none. */
  lemma TitleIsFirstName(blocks: seq<Block>, tail: string, whole: string)
    ensures var title := SplitSections(blocks, tail, whole).0;
      (title.None? <==> blocks == []) &&
      (blocks != [] ==> title == Some(NamesOf(blocks, [0])[0]) && title.value != "")
  {
  }

  // ----- reading a path --------------------------------------------------------------------------------

  predicate NoneHasMark(names: seq<string>) {
    forall i :: 0 <= i < |names| ==> '>' !in names[i]
  }

  /** Two ways to cut a text at its last mark are one. */
  lemma LastMark(a: string, x: string, b: string, y: string)
    requires a + (" > " + x) == b + (" > " + y) && '>' !in x && '>' !in y
    ensures a == b && x == y
  {
    if |a| < |b| {
      MarkAfter(a, x, b, y);
    } else if |b| < |a| {
      MarkAfter(b, y, a, x);
    } else {
      var p := a + (" > " + x);
      assert p[..|a|] == a && p[..|b|] == b;
      assert p[|a| + 3..] == x && p[|b| + 3..] == y;
    }
  }

  /** The later of two marks cannot overlap the earlier one, and so lies in the text after it. */
  lemma MarkAfter(a: string, x: string, b: string, y: string)
    requires a + (" > " + x) == b + (" > " + y) && |a| < |b|
    ensures '>' in x
  {
    var p := a + (" > " + x);
    assert p[|b|] == (b + (" > " + y))[|b|] == ' ';
    assert p[|b| + 1] == (b + (" > " + y))[|b| + 1] == '>';
    assert p[|a| + 1] == '>' && p[|a| + 2] == ' ';
    assert p[|b| + 1] == x[|b| + 1 - |a| - 3];
  }

  /** One name has no mark in it; a spelled path of more has. */
  lemma MarkSeen(path: string, names: seq<string>)
    requires Spells(path, names) && |names| > 1
    ensures '>' in path
  {
    var last := names[|names| - 1];
    var front :| path == front + (" > " + last) && Spells(front, names[..|names| - 1]);
    assert path[|front| + 1] == '>';
  }

  /** When no heading has the mark in it, the path tells the headings: how many, which and in which order. */
  lemma {:induction false} PathTellsNames(path: string, names: seq<string>, others: seq<string>)
    requires Spells(path, names) && Spells(path, others) && NoneHasMark(names) && NoneHasMark(others)
    ensures names == others
    decreases |names|
  {
    if |names| == 1 || |others| == 1 {
      if |names| > 1 {
        MarkSeen(path, names);
      }
      if |others| > 1 {
        MarkSeen(path, others);
      }
    } else {
      var m, n := |names| - 1, |others| - 1;
      var a :| path == a + (" > " + names[m]) && Spells(a, names[..m]);
      var b :| path == b + (" > " + others[n]) && Spells(b, others[..n]);
      LastMark(a, names[m], b, others[n]);
      PathTellsNames(a, names[..m], others[..n]);
      assert names == names[..m] + [names[m]] && others == others[..n] + [others[n]];
    }
  }
}
