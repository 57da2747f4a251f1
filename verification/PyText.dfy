/** The string operations of Python the text code relies on: strip, find, split, join. */
module PyText {
  import opened Options

  /** str.isspace, which is also what \s matches. */
  predicate IsSpace(ch: char) {
    '\t' <= ch <= '\r' || '\U{1c}' <= ch <= ' ' || ch == '\U{85}' || ch == '\U{a0}' || ch == '\U{1680}' ||
    '\U{2000}' <= ch <= '\U{200a}' || ch == '\U{2028}' || ch == '\U{2029}' || ch == '\U{202f}' ||
    ch == '\U{205f}' || ch == '\U{3000}'
  }

  predicate AllSpace(s: string) {
    forall i :: 0 <= i < |s| ==> IsSpace(s[i])
  }

  function LeftStrip(s: string): string {
    if s != [] && IsSpace(s[0]) then LeftStrip(s[1..]) else s
  }

  function RightStrip(s: string): string {
    if s != [] && IsSpace(s[|s| - 1]) then RightStrip(s[..|s| - 1]) else s
  }

  function Strip(s: string): string {
    RightStrip(LeftStrip(s))
  }

  /** Nothing to strip at either end. */
  predicate Tight(s: string) {
    s == [] || (!IsSpace(s[0]) && !IsSpace(s[|s| - 1]))
  }

  lemma {:induction false} LeftStripSuffix(s: string) returns (k: nat)
    ensures k <= |s| && LeftStrip(s) == s[k..] && AllSpace(s[..k])
    decreases |s|
  {
    if s != [] && IsSpace(s[0]) {
      k := LeftStripSuffix(s[1..]);
      k := k + 1;
      assert s[1..][k - 1..] == s[k..];
      assert s[..k] == [s[0]] + s[1..][..k - 1];
    } else {
      k := 0;
    }
  }

  lemma {:induction false} RightStripPrefix(s: string) returns (k: nat)
    ensures k <= |s| && RightStrip(s) == s[..k] && AllSpace(s[k..])
    decreases |s|
  {
    if s != [] && IsSpace(s[|s| - 1]) {
      k := RightStripPrefix(s[..|s| - 1]);
      assert s[..|s| - 1][..k] == s[..k];
      assert s[k..] == s[..|s| - 1][k..] + [s[|s| - 1]];
    } else {
      k := |s|;
      assert s[..k] == s;
    }
  }

  /** Stripping text around a core that starts and ends with a non-space never cuts the core. */
  lemma {:induction false} LeftStripAround(a: string, core: string) returns (a': string)
    requires core != [] && !IsSpace(core[0])
    ensures LeftStrip(a + core) == a' + core && |a'| <= |a| && a' == a[|a| - |a'|..] && AllSpace(a[..|a| - |a'|])
    decreases |a|
  {
    if a == [] {
      assert a + core == core;
      a' := a;
    } else if IsSpace(a[0]) {
      assert (a + core)[1..] == a[1..] + core;
      a' := LeftStripAround(a[1..], core);
      assert a[..|a| - |a'|] == [a[0]] + a[1..][..|a| - 1 - |a'|];
      assert a[|a| - |a'|..] == a[1..][|a| - 1 - |a'|..];
    } else {
      a' := a;
      assert (a + core)[0] == a[0];
    }
  }

  lemma {:induction false} RightStripAround(core: string, b: string) returns (b': string)
    requires core != [] && !IsSpace(core[|core| - 1])
    ensures RightStrip(core + b) == core + b' && |b'| <= |b| && b' == b[..|b'|] && AllSpace(b[|b'|..])
    decreases |b|
  {
    if b == [] {
      assert core + b == core;
      b' := b;
    } else if IsSpace(b[|b| - 1]) {
      assert (core + b)[..|core + b| - 1] == core + b[..|b| - 1];
      b' := RightStripAround(core, b[..|b| - 1]);
      assert b[|b'|..] == b[..|b| - 1][|b'|..] + [b[|b| - 1]];
    } else {
      b' := b;
      assert (core + b)[|core + b| - 1] == b[|b| - 1];
    }
  }

  lemma StripAround(a: string, core: string, b: string) returns (a': string, b': string)
    requires core != [] && Tight(core)
    ensures Strip(a + core + b) == a' + core + b'
    ensures |a'| <= |a| && a' == a[|a| - |a'|..] && |b'| <= |b| && b' == b[..|b'|]
    ensures AllSpace(a) ==> a' == []
    ensures AllSpace(b) ==> b' == []
  {
    assert a + core + b == a + (core + b);
    a' := LeftStripAround(a, core + b);
    assert a' + (core + b) == (a' + core) + b;
    b' := RightStripAround(a' + core, b);
    if AllSpace(a) && a' != [] {
      StrippedHead(a, core + b);
    }
    if AllSpace(b) && b' != [] {
      StrippedTail(a' + core, b);
    }
  }

  lemma {:induction false} StrippedHead(a: string, core: string)
    requires AllSpace(a) && core != [] && !IsSpace(core[0])
    ensures LeftStrip(a + core) == core
    decreases |a|
  {
    if a == [] {
      assert a + core == core;
    } else {
      assert (a + core)[1..] == a[1..] + core;
      StrippedHead(a[1..], core);
    }
  }

  lemma {:induction false} StrippedTail(core: string, b: string)
    requires AllSpace(b) && core != [] && !IsSpace(core[|core| - 1])
    ensures RightStrip(core + b) == core
    decreases |b|
  {
    if b == [] {
      assert core + b == core;
    } else {
      assert (core + b)[..|core + b| - 1] == core + b[..|b| - 1];
      StrippedTail(core, b[..|b| - 1]);
    }
  }

  lemma StripTight(s: string)
    requires Tight(s)
    ensures Strip(s) == s
  {
  }

  /** sep.join(parts) */
  function Join(parts: seq<string>, sep: string): string {
    if parts == [] then "" else if |parts| == 1 then parts[0] else parts[0] + (sep + Join(parts[1..], sep))
  }

  predicate OccursAt(s: string, part: string, i: nat) {
    i + |part| <= |s| && s[i..i + |part|] == part
  }

  /** s.find(part, from) */
  function Find(s: string, part: string, from: nat): (k: Option<nat>)
    ensures k.Some? ==> from <= k.value && OccursAt(s, part, k.value)
    ensures k.Some? ==> forall i :: from <= i < k.value ==> !OccursAt(s, part, i)
    ensures k.None? ==> forall i :: from <= i ==> !OccursAt(s, part, i)
    decreases |s| - from
  {
    if from + |part| > |s| then None
    else if OccursAt(s, part, from) then Some(from)
    else Find(s, part, from + 1)
  }

  // ----- a run of white space from a position on -------------------------------------------

  function SkipSpace(s: string, i: nat): (k: nat)
    ensures i <= |s| ==> i <= k <= |s|
    decreases |s| - i
  {
    if i < |s| && IsSpace(s[i]) then SkipSpace(s, i + 1) else i
  }

  lemma {:induction false} SkipRight(a: string, b: string, i: nat)
    requires i <= |b|
    ensures SkipSpace(a + b, |a| + i) == |a| + SkipSpace(b, i)
    decreases |b| - i
  {
    if i < |b| && IsSpace(b[i]) {
      SkipRight(a, b, i + 1);
    }
  }

  lemma {:induction false} SkipLeft(a: string, b: string, i: nat)
    requires i <= |a|
    ensures SkipSpace(a + b, i) == if SkipSpace(a, i) < |a| then SkipSpace(a, i) else |a| + SkipSpace(b, 0)
    decreases |a| - i
  {
    if i == |a| {
      SkipRight(a, b, 0);
    } else if IsSpace(a[i]) {
      SkipLeft(a, b, i + 1);
    }
  }

  lemma {:induction false} SkipStops(s: string, i: nat, j: nat)
    requires i <= |s|
    ensures i <= j < SkipSpace(s, i) ==> IsSpace(s[j])
    ensures SkipSpace(s, i) < |s| ==> !IsSpace(s[SkipSpace(s, i)])
    decreases |s| - i
  {
    if i < |s| && IsSpace(s[i]) {
      SkipStops(s, i + 1, j);
    }
  }

  lemma {:induction false} SkipAll(s: string, i: nat)
    requires i <= |s| && forall j :: i <= j < |s| ==> IsSpace(s[j])
    ensures SkipSpace(s, i) == |s|
    decreases |s| - i
  {
    if i < |s| {
      SkipAll(s, i + 1);
    }
  }
}
