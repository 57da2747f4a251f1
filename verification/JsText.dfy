/** The string operations of JavaScript the CSV code relies on: trim and the split into lines. */
module JsText {
  /** What String.prototype.trim removes: white space and line terminators. */
  predicate IsSpace(ch: char) {
    '\t' <= ch <= '\r' || ch == ' ' || ch == '\U{a0}' || ch == '\U{1680}' || '\U{2000}' <= ch <= '\U{200a}' ||
    ch == '\U{2028}' || ch == '\U{2029}' || ch == '\U{202f}' || ch == '\U{205f}' || ch == '\U{3000}' || ch == '\U{feff}'
  }

  function TrimLeft(s: string): string {
    if s != "" && IsSpace(s[0]) then TrimLeft(s[1..]) else s
  }

  function TrimRight(s: string): string {
    if s != "" && IsSpace(s[|s| - 1]) then TrimRight(s[..|s| - 1]) else s
  }

  function Trim(s: string): string {
    TrimRight(TrimLeft(s))
  }

  /** Nothing to trim at either end. */
  predicate Tight(s: string) {
    s != "" ==> !IsSpace(s[0]) && !IsSpace(s[|s| - 1])
  }

  lemma {:induction false} TrimLeftSlice(s: string) returns (k: nat)
    ensures k <= |s| && TrimLeft(s) == s[k..]
    ensures TrimLeft(s) != "" ==> !IsSpace(TrimLeft(s)[0])
    ensures s != "" && IsSpace(s[0]) ==> k > 0
    decreases |s|
  {
    if s != "" && IsSpace(s[0]) {
      k := TrimLeftSlice(s[1..]);
      k := k + 1;
    } else {
      k := 0;
    }
  }

  lemma {:induction false} TrimRightSlice(s: string) returns (k: nat)
    ensures k <= |s| && TrimRight(s) == s[..k]
    ensures TrimRight(s) != "" ==> !IsSpace(TrimRight(s)[k - 1])
    ensures s != "" && IsSpace(s[|s| - 1]) ==> k < |s|
    decreases |s|
  {
    if s != "" && IsSpace(s[|s| - 1]) {
      k := TrimRightSlice(s[..|s| - 1]);
      assert s[..|s| - 1][..k] == s[..k];
    } else {
      k := |s|;
      assert s[..k] == s;
    }
  }

  /** A trimmed text is a tight slice of the text, cut wherever an end was a space. */
  lemma TrimSlice(s: string) returns (i: nat, j: nat)
    ensures i <= j <= |s| && Trim(s) == s[i..j] && Tight(Trim(s))
    ensures s != "" && IsSpace(s[0]) ==> i > 0
    ensures s != "" && IsSpace(s[|s| - 1]) ==> j < |s| || i == |s|
  {
    i := TrimLeftSlice(s);
    var k := TrimRightSlice(s[i..]);
    j := i + k;
    assert s[i..][..k] == s[i..j];
  }

  lemma TrimFixed(s: string)
    ensures Trim(s) == s <==> Tight(s)
  {
    var i, j := TrimSlice(s);
  }

  lemma {:induction false} TrimRightTail(s: string, tail: string)
    requires s != "" && Tight(s) && forall k :: 0 <= k < |tail| ==> IsSpace(tail[k])
    ensures TrimRight(s + tail) == s
    decreases |tail|
  {
    if tail == "" {
      assert s + tail == s;
    } else {
      assert (s + tail)[..|s + tail| - 1] == s + tail[..|tail| - 1];
      TrimRightTail(s, tail[..|tail| - 1]);
    }
  }

  lemma TrimTail(s: string, tail: string)
    requires s != "" && Tight(s) && forall k :: 0 <= k < |tail| ==> IsSpace(tail[k])
    ensures Trim(s + tail) == s
  {
    assert (s + tail)[0] == s[0];
    TrimRightTail(s, tail);
  }

  // ----- lines: split(/\r?\n/) ---------------------------------------------------------------

  function FindLf(s: string): (k: nat)
    ensures k <= |s| && (k < |s| ==> s[k] == '\n') && forall i :: 0 <= i < k ==> s[i] != '\n'
  {
    if s == "" || s[0] == '\n' then 0
    else
      var k := FindLf(s[1..]);
      assert forall i :: 0 < i <= k ==> s[i] == s[1..][i - 1];
      1 + k
  }

  function DropCr(line: string): string {
    if line != "" && line[|line| - 1] == '\r' then line[..|line| - 1] else line
  }

  function Lines(s: string): (lines: seq<string>)
    ensures |lines| > 0
    decreases |s|
  {
    var k := FindLf(s);
    if k == |s| then [s] else [DropCr(s[..k])] + Lines(s[k + 1..])
  }

  predicate NoLf(s: string) {
    forall i :: 0 <= i < |s| ==> s[i] != '\n'
  }

  lemma {:induction false} LinesNoLf(s: string)
    ensures forall i :: 0 <= i < |Lines(s)| ==> NoLf(Lines(s)[i])
    decreases |s|
  {
    var k := FindLf(s);
    if k < |s| {
      LinesNoLf(s[k + 1..]);
    }
  }

  /** How many line feeds. */
  function Lfs(s: string): nat {
    if s == "" then 0 else (if s[0] == '\n' then 1 else 0) + Lfs(s[1..])
  }

  lemma {:induction false} LfsAppend(a: string, b: string)
    ensures Lfs(a + b) == Lfs(a) + Lfs(b)
  {
    if a == "" {
      assert a + b == b;
    } else {
      assert (a + b)[1..] == a[1..] + b;
      LfsAppend(a[1..], b);
    }
  }

  lemma {:induction false} NoLfs(s: string)
    requires NoLf(s)
    ensures Lfs(s) == 0
  {
    if s != "" {
      NoLfs(s[1..]);
    }
  }

  lemma {:induction false} LinesCount(s: string)
    ensures |Lines(s)| == 1 + Lfs(s)
    decreases |s|
  {
    var k := FindLf(s);
    if k == |s| {
      NoLfs(s);
    } else {
      LinesCount(s[k + 1..]);
      assert s == s[..k] + ("\n" + s[k + 1..]);
      LfsAppend(s[..k], "\n" + s[k + 1..]);
      NoLfs(s[..k]);
      LfsAppend("\n", s[k + 1..]);
    }
  }

  lemma LfsOfParts(s: string, i: nat, j: nat)
    requires i <= j <= |s|
    ensures Lfs(s) == Lfs(s[..i]) + Lfs(s[i..j]) + Lfs(s[j..])
  {
    hide Lfs;
    assert s == s[..i] + s[i..] && s[i..] == s[i..j] + s[j..];
    LfsAppend(s[..i], s[i..]);
    LfsAppend(s[i..j], s[j..]);
  }

  lemma {:induction false} SomeLf(s: string, i: nat)
    requires i < |s| && s[i] == '\n'
    ensures Lfs(s) > 0
  {
    if s[0] != '\n' {
      SomeLf(s[1..], i - 1);
    }
  }

  lemma SliceLfs(s: string, i: nat, j: nat)
    requires i <= j <= |s|
    ensures Lfs(s[i..j]) <= Lfs(s)
    ensures i > 0 && s[0] == '\n' ==> Lfs(s[i..j]) < Lfs(s)
    ensures j < |s| && s[|s| - 1] == '\n' ==> Lfs(s[i..j]) < Lfs(s)
  {
    hide Lfs;
    LfsOfParts(s, i, j);
    if i > 0 && s[0] == '\n' {
      SomeLf(s[..i], 0);
    }
    if j < |s| && s[|s| - 1] == '\n' {
      SomeLf(s[j..], |s| - 1 - j);
    }
  }

  lemma LinesFirst(line: string, rest: string)
    requires NoLf(line) && (line != "" ==> line[|line| - 1] != '\r')
    ensures Lines(line + ("\n" + rest)) == [line] + Lines(rest)
  {
    var s := line + ("\n" + rest);
    var k := FindLf(s);
    assert s[|line|] == '\n';
    assert forall i :: 0 <= i < |line| ==> s[i] == line[i];
    assert k == |line| && s[..k] == line && s[k + 1..] == rest;
  }

  lemma LinesSingle(line: string)
    requires NoLf(line)
    ensures Lines(line) == [line]
  {
  }
}
