/** Texts joined with a colon come apart in one way where the first or the last has no colon. */
module ColonKeys {
  lemma SplitAtColon(a: string, x: string, b: string, y: string)
    requires ':' !in a && ':' !in b
    ensures a + ":" + x == b + ":" + y <==> a == b && x == y
  {
    if a + ":" + x == b + ":" + y {
      var s := a + ":" + x;
      assert s[|a|] == ':' && s[|b|] == ':';
      assert forall i :: 0 <= i < |a| ==> s[i] == a[i];
      assert forall i :: 0 <= i < |b| ==> s[i] == b[i];
      assert a == s[..|a|] && b == s[..|b|];
      assert x == s[|a| + 1..] && y == s[|b| + 1..];
    }
  }

  lemma SplitAtLast(x: string, a: string, y: string, b: string)
    requires ':' !in a && ':' !in b
    requires x + ":" + a == y + ":" + b
    ensures a == b && x == y
  {
    var s := x + ":" + a;
    assert s[|x|] == ':' && s[|y|] == ':';
    assert forall i :: |x| < i < |s| ==> s[i] == a[i - |x| - 1];
    assert forall i :: |y| < i < |s| ==> s[i] == b[i - |y| - 1];
    assert x == s[..|x|] && y == s[..|y|];
    assert a == s[|x| + 1..] && b == s[|y| + 1..];
  }
}
