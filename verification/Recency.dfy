/** Least-recently-used order: the distinct keys of an access history by their last use. */
module Recency {
  ghost predicate NoDups<T>(s: seq<T>) {
    forall i, j :: 0 <= i < j < |s| ==> s[i] != s[j]
  }

  function Without<T(==)>(s: seq<T>, x: T): seq<T> {
    if s == [] then [] else if s[0] == x then Without(s[1..], x) else [s[0]] + Without(s[1..], x)
  }

  /** Distinct keys, the one used longest ago first. */
  function ByLastUse<T(==)>(history: seq<T>): seq<T> {
    if history == [] then []
    else
      var last := history[|history| - 1];
      Without(ByLastUse(history[..|history| - 1]), last) + [last]
  }

  function LastOf<T>(s: seq<T>, n: nat): seq<T> {
    if |s| <= n then s else s[|s| - n..]
  }

  /** The position of the last use of a key. */
  function LastUse<T(==)>(history: seq<T>, x: T): (k: nat)
    requires x in history
    ensures k < |history| && history[k] == x && forall i :: k < i < |history| ==> history[i] != x
  {
    if history[|history| - 1] == x then |history| - 1 else LastUse(history[..|history| - 1], x)
  }

  // ----- Without ------------------------------------------------------------------------

  lemma {:induction false} WithoutAbsent<T>(s: seq<T>, x: T)
    requires x !in s
    ensures Without(s, x) == s
  {
    if s != [] {
      WithoutAbsent(s[1..], x);
    }
  }

  lemma {:induction false} WithoutAppend<T>(a: seq<T>, b: seq<T>, x: T)
    ensures Without(a + b, x) == Without(a, x) + Without(b, x)
  {
    if a == [] {
      assert a + b == b;
    } else {
      assert (a + b)[1..] == a[1..] + b;
      WithoutAppend(a[1..], b, x);
    }
  }

  lemma {:induction false} WithoutMember<T>(s: seq<T>, x: T, y: T)
    ensures y in Without(s, x) <==> y in s && y != x
  {
    if s != [] {
      assert s == [s[0]] + s[1..];
      WithoutMember(s[1..], x, y);
    }
  }

  lemma WithoutOne<T>(a: seq<T>, x: T, b: seq<T>)
    requires x !in a && x !in b
    ensures Without(a + ([x] + b), x) == a + b
  {
    WithoutAppend(a, [x] + b, x);
    WithoutAbsent(a, x);
    WithoutAbsent(b, x);
    assert ([x] + b)[1..] == b;
  }

  lemma CutAt<T>(s: seq<T>, i: nat)
    requires NoDups(s) && i < |s|
    ensures s == s[..i] + ([s[i]] + s[i + 1..]) && s[i] !in s[..i] && s[i] !in s[i + 1..]
  {
  }

  /** Removing the one occurrence cuts the sequence there. */
  lemma WithoutAt<T>(s: seq<T>, i: nat)
    requires NoDups(s) && i < |s|
    ensures Without(s, s[i]) == s[..i] + s[i + 1..]
  {
    hide Without, NoDups;
    CutAt(s, i);
    WithoutOne(s[..i], s[i], s[i + 1..]);
  }

  lemma WithoutNoDups<T>(s: seq<T>, x: T)
    requires NoDups(s)
    ensures NoDups(Without(s, x)) && x !in Without(s, x)
    ensures |Without(s, x)| == if x in s then |s| - 1 else |s|
  {
    WithoutMember(s, x, x);
    if x in s {
      var i :| 0 <= i < |s| && s[i] == x;
      WithoutAt(s, i);
    } else {
      WithoutAbsent(s, x);
    }
  }

  // ----- the order is by last use -----------------------------------------------------------

  lemma {:induction false} ByLastUseHolds<T>(history: seq<T>)
    ensures NoDups(ByLastUse(history))
    ensures forall x :: x in ByLastUse(history) <==> x in history
  {
    if history != [] {
      var h, last := history[..|history| - 1], history[|history| - 1];
      assert history == h + [last];
      ByLastUseHolds(h);
      WithoutNoDups(ByLastUse(h), last);
      forall x ensures x in ByLastUse(history) <==> x in history {
        WithoutMember(ByLastUse(h), last, x);
      }
    }
  }

  ghost predicate Ascending<T>(order: seq<T>, history: seq<T>) {
    (forall i :: 0 <= i < |order| ==> order[i] in history) &&
    forall i, j :: 0 <= i < j < |order| ==> LastUse(history, order[i]) < LastUse(history, order[j])
  }

  lemma LastUseSnoc<T>(h: seq<T>, last: T, x: T)
    requires x in h && x != last
    ensures LastUse(h + [last], x) == LastUse(h, x)
  {
    assert (h + [last])[..|h|] == h;
  }

  lemma {:induction false} ByLastUseAscends<T>(history: seq<T>)
    ensures Ascending(ByLastUse(history), history)
  {
    ByLastUseHolds(history);
    if history != [] {
      var h, last := history[..|history| - 1], history[|history| - 1];
      assert history == h + [last];
      var r, order := ByLastUse(h), ByLastUse(history);
      ByLastUseHolds(h);
      ByLastUseAscends(h);
      var kept := Without(r, last);
      assert forall i :: 0 <= i < |order| ==> order[i] in order;
      forall i, j | 0 <= i < j < |order| ensures LastUse(history, order[i]) < LastUse(history, order[j]) {
        KeptOrder(r, last, i, j);
        WithoutMember(r, last, order[i]);
        LastUseSnoc(h, last, order[i]);
        if j < |kept| {
          WithoutMember(r, last, order[j]);
          LastUseSnoc(h, last, order[j]);
        } else {
          assert order[j] == last;
        }
      }
      assert Ascending(order, history);
    } else {
      assert ByLastUse(history) == [];
    }
  }

  lemma KeptOrder<T>(r: seq<T>, x: T, i: nat, j: nat)
    requires NoDups(r) && i < j < |Without(r, x)| + 1
    ensures Without(r, x)[i] in r
    ensures j < |Without(r, x)| ==> exists a, b :: 0 <= a < b < |r| && r[a] == Without(r, x)[i] && r[b] == Without(r, x)[j]
  {
    var kept := Without(r, x);
    if x in r {
      var k :| 0 <= k < |r| && r[k] == x;
      WithoutAt(r, k);
      var a, b := if i < k then i else i + 1, if j < k then j else j + 1;
      assert r[a] == kept[i];
      if j < |kept| {
        assert r[b] == kept[j];
      }
    } else {
      WithoutAbsent(r, x);
      assert r[i] == kept[i];
    }
  }

  // ----- bounded: one more use -----------------------------------------------------------------

  lemma LastOfParts<T>(a: seq<T>, b: seq<T>)
    ensures LastOf(a + b, |b|) == b
  {
  }

  lemma CutParts<T>(r: seq<T>, n: nat) returns (a: seq<T>, b: seq<T>)
    requires |r| > n && NoDups(r)
    ensures r == a + b && |b| == n && LastOf(r, n) == b && NoDups(a) && NoDups(b)
    ensures forall x :: x in a ==> x !in b
  {
    a, b := r[..|r| - n], r[|r| - n..];
  }

  lemma Regroup<T>(a: seq<T>, b: seq<T>, c: seq<T>)
    ensures (a + b) + c == a + (b + c)
  {
  }

  /** A key among the last n moves to the end. */
  lemma BoundedHit<T>(r: seq<T>, n: nat, x: T)
    requires NoDups(r) && x in LastOf(r, n)
    ensures LastOf(Without(r, x) + [x], n) == Without(LastOf(r, n), x) + [x]
  {
    hide Without, LastOf, NoDups;
    if |r| > n {
      var a, b := CutParts(r, n);
      WithoutAppend(a, b, x);
      WithoutAbsent(a, x);
      WithoutNoDups(b, x);
      Regroup(a, Without(b, x), [x]);
      LastOfParts(a, Without(b, x) + [x]);
    } else {
      WithoutNoDups(r, x);
      ShortLast(r, n);
      ShortLast(Without(r, x) + [x], n);
    }
  }

  lemma ShortLast<T>(r: seq<T>, n: nat)
    requires |r| <= n
    ensures LastOf(r, n) == r
  {
  }

  lemma LastOfLast<T>(a: seq<T>, b: seq<T>, x: T, n: nat)
    requires |b| == n
    ensures LastOf(a + (b + [x]), n) == LastOf(b + [x], n)
  {
  }

  /** Another key is appended, and the oldest goes when there are more than n. */
  lemma BoundedMiss<T>(r: seq<T>, n: nat, x: T)
    requires NoDups(r) && x !in LastOf(r, n)
    ensures LastOf(Without(r, x) + [x], n) == LastOf(LastOf(r, n) + [x], n)
  {
    hide Without, LastOf, NoDups;
    if |r| > n {
      var a, b := CutParts(r, n);
      WithoutAppend(a, b, x);
      WithoutAbsent(b, x);
      Regroup(Without(a, x), b, [x]);
      LastOfLast(Without(a, x), b, x, n);
    } else {
      ShortLast(r, n);
      WithoutAbsent(r, x);
    }
  }

  // ----- how far back a key may be ----------------------------------------------------------------

  /** The keys used after the last use of x. */
  ghost function UsedSince<T>(history: seq<T>, x: T): set<T>
    requires x in history
  {
    set y | y in history && LastUse(history, y) > LastUse(history, x)
  }

  ghost function Elements<T>(s: seq<T>): set<T> {
    set y | y in s
  }

  lemma {:induction false} SetOfNoDups<T>(s: seq<T>)
    requires NoDups(s)
    ensures |Elements(s)| == |s|
  {
    if s != [] {
      SetOfNoDups(s[1..]);
      assert Elements(s) == {s[0]} + Elements(s[1..]);
    }
  }

  /** In the order by last use, the keys used since stand behind. */
  lemma SinceIsBehind<T>(history: seq<T>, i: nat)
    requires i < |ByLastUse(history)| && ByLastUse(history)[i] in history
    ensures UsedSince(history, ByLastUse(history)[i]) == Elements(ByLastUse(history)[i + 1..])
  {
    hide ByLastUse;
    var r := ByLastUse(history);
    ByLastUseHolds(history);
    ByLastUseAscends(history);
    forall y ensures y in UsedSince(history, r[i]) <==> y in r[i + 1..] {
      if y in history {
        var j :| 0 <= j < |r| && r[j] == y;
        if j > i {
          assert r[i + 1..][j - i - 1] == y;
        }
      }
    }
  }

  lemma LastIndex<T>(r: seq<T>, n: nat, i: nat)
    requires NoDups(r) && i < |r|
    ensures r[i] in LastOf(r, n) <==> |r| - 1 - i < n
  {
    if |r| > n && i >= |r| - n {
      assert LastOf(r, n)[i - (|r| - n)] == r[i];
    }
  }

  /** A key is among the last n exactly when fewer than n other keys have been used since. */
  lemma AmongLast<T>(history: seq<T>, n: nat, x: T)
    requires x in history
    ensures x in LastOf(ByLastUse(history), n) <==> |UsedSince(history, x)| < n
  {
    hide ByLastUse, LastOf, UsedSince;
    var r := ByLastUse(history);
    ByLastUseHolds(history);
    var i: nat :| i < |r| && r[i] == x;
    SinceIsBehind(history, i);
    SetOfNoDups(r[i + 1..]);
    LastIndex(r, n, i);
  }
}
