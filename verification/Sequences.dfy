/** Filtering, mapping and stable sorting of sequences. */
module Sequences {
  import opened Options

  function Filter<T>(p: T -> bool, xs: seq<T>): seq<T> {
    if xs == [] then []
    else
      var before, last := Filter(p, xs[..|xs| - 1]), xs[|xs| - 1];
      if p(last) then before + [last] else before
  }

  lemma {:induction false} FilterAppend<T>(p: T -> bool, xs: seq<T>, ys: seq<T>)
    ensures Filter(p, xs + ys) == Filter(p, xs) + Filter(p, ys)
    decreases |ys|
  {
    if ys == [] {
      assert xs + ys == xs;
    } else {
      var zs := xs + ys;
      assert zs[..|zs| - 1] == xs + ys[..|ys| - 1];
      FilterAppend(p, xs, ys[..|ys| - 1]);
    }
  }

  lemma {:induction false} FilterMember<T>(p: T -> bool, xs: seq<T>, x: T)
    ensures x in Filter(p, xs) <==> x in xs && p(x)
    decreases |xs|
  {
    if xs != [] {
      FilterMember(p, xs[..|xs| - 1], x);
      assert xs == xs[..|xs| - 1] + [xs[|xs| - 1]];
    }
  }

  lemma {:induction false} FilterAll<T>(p: T -> bool, xs: seq<T>)
    requires forall x :: x in xs ==> p(x)
    ensures Filter(p, xs) == xs
    decreases |xs|
  {
    if xs != [] {
      FilterAll(p, xs[..|xs| - 1]);
      assert xs == xs[..|xs| - 1] + [xs[|xs| - 1]];
    }
  }

  lemma {:induction false} FilterNone<T>(p: T -> bool, xs: seq<T>)
    requires forall x :: x in xs ==> !p(x)
    ensures Filter(p, xs) == []
    decreases |xs|
  {
    if xs != [] {
      FilterNone(p, xs[..|xs| - 1]);
    }
  }

  lemma {:induction false} FilterAgree<T>(p: T -> bool, q: T -> bool, xs: seq<T>)
    requires forall x :: x in xs ==> p(x) == q(x)
    ensures Filter(p, xs) == Filter(q, xs)
    decreases |xs|
  {
    if xs != [] {
      FilterAgree(p, q, xs[..|xs| - 1]);
    }
  }

  lemma {:induction false} FilterFilter<T>(p: T -> bool, q: T -> bool, both: T -> bool, xs: seq<T>)
    requires forall x :: x in xs ==> both(x) == (q(x) && p(x))
    ensures Filter(p, Filter(q, xs)) == Filter(both, xs)
    decreases |xs|
  {
    if xs != [] {
      FilterFilter(p, q, both, xs[..|xs| - 1]);
      var kept, last := Filter(q, xs[..|xs| - 1]), xs[|xs| - 1];
      assert (kept + [last])[..|kept|] == kept;
    }
  }

  function Map<T, U>(f: T -> U, xs: seq<T>): (ys: seq<U>)
    ensures |ys| == |xs| && forall i :: 0 <= i < |xs| ==> ys[i] == f(xs[i])
  {
    seq(|xs|, i requires 0 <= i < |xs| => f(xs[i]))
  }

  // ----- stable insertion sort by an integer rank ---------------------------

  function Insert<T>(rank: T -> int, x: T, xs: seq<T>): seq<T> {
    if xs == [] || rank(xs[|xs| - 1]) <= rank(x) then xs + [x]
    else Insert(rank, x, xs[..|xs| - 1]) + [xs[|xs| - 1]]
  }

  /** ORDER BY rank, rows of equal rank keeping their order. */
  function SortBy<T>(rank: T -> int, xs: seq<T>): seq<T> {
    if xs == [] then [] else Insert(rank, xs[|xs| - 1], SortBy(rank, xs[..|xs| - 1]))
  }

  ghost predicate Sorted<T>(rank: T -> int, xs: seq<T>) {
    forall i, j :: 0 <= i < j < |xs| ==> rank(xs[i]) <= rank(xs[j])
  }

  lemma {:induction false} InsertPermutes<T>(rank: T -> int, x: T, xs: seq<T>)
    ensures multiset(Insert(rank, x, xs)) == multiset(xs) + multiset{x}
    decreases |xs|
  {
    if xs != [] && rank(xs[|xs| - 1]) > rank(x) {
      InsertPermutes(rank, x, xs[..|xs| - 1]);
      assert xs == xs[..|xs| - 1] + [xs[|xs| - 1]];
    }
  }

  lemma SortedSnoc<T>(rank: T -> int, xs: seq<T>, x: T)
    requires Sorted(rank, xs) && forall y :: y in xs ==> rank(y) <= rank(x)
    ensures Sorted(rank, xs + [x])
  {
  }

  lemma {:induction false} InsertSorted<T>(rank: T -> int, x: T, xs: seq<T>)
    requires Sorted(rank, xs)
    ensures Sorted(rank, Insert(rank, x, xs))
    decreases |xs|
  {
    if xs == [] || rank(xs[|xs| - 1]) <= rank(x) {
      SortedSnoc(rank, xs, x);
    } else {
      var init, last := xs[..|xs| - 1], xs[|xs| - 1];
      InsertSorted(rank, x, init);
      InsertPermutes(rank, x, init);
      var ys := Insert(rank, x, init);
      forall y | y in ys ensures rank(y) <= rank(last) {
        assert y in multiset(ys);
        assert y in init || y == x;
      }
      SortedSnoc(rank, ys, last);
    }
  }

  lemma {:induction false} SortBySorts<T>(rank: T -> int, xs: seq<T>)
    ensures Sorted(rank, SortBy(rank, xs))
    ensures multiset(SortBy(rank, xs)) == multiset(xs)
    decreases |xs|
  {
    if xs != [] {
      SortBySorts(rank, xs[..|xs| - 1]);
      InsertSorted(rank, xs[|xs| - 1], SortBy(rank, xs[..|xs| - 1]));
      InsertPermutes(rank, xs[|xs| - 1], SortBy(rank, xs[..|xs| - 1]));
      assert xs == xs[..|xs| - 1] + [xs[|xs| - 1]];
    }
  }

  lemma {:induction false} SortOfSorted<T>(rank: T -> int, xs: seq<T>)
    requires Sorted(rank, xs)
    ensures SortBy(rank, xs) == xs
    decreases |xs|
  {
    if xs != [] {
      SortOfSorted(rank, xs[..|xs| - 1]);
      assert xs == xs[..|xs| - 1] + [xs[|xs| - 1]];
    }
  }

  lemma {:induction false} FilterInsert<T>(rank: T -> int, p: T -> bool, x: T, xs: seq<T>)
    requires Sorted(rank, xs)
    ensures Filter(p, Insert(rank, x, xs)) ==
      (if p(x) then Insert(rank, x, Filter(p, xs)) else Filter(p, xs))
    decreases |xs|
  {
    if xs == [] || rank(xs[|xs| - 1]) <= rank(x) {
      assert (xs + [x])[..|xs|] == xs;
      var kept := Filter(p, xs);
      if kept != [] {
        FilterMember(p, xs, kept[|kept| - 1]);
      }
    } else {
      var init, last := xs[..|xs| - 1], xs[|xs| - 1];
      FilterInsert(rank, p, x, init);
      var ys := Insert(rank, x, init);
      assert (ys + [last])[..|ys|] == ys;
      var kept := Filter(p, init);
      assert (kept + [last])[..|kept|] == kept;
      if !p(last) && p(x) {
        assert Filter(p, xs) == kept;
      }
    }
  }

  /** Sorting a whole batch and then picking is sorting what was picked. */
  lemma {:induction false} FilterSort<T>(rank: T -> int, p: T -> bool, xs: seq<T>)
    ensures Filter(p, SortBy(rank, xs)) == SortBy(rank, Filter(p, xs))
    decreases |xs|
  {
    if xs != [] {
      var init, last := xs[..|xs| - 1], xs[|xs| - 1];
      FilterSort(rank, p, init);
      SortBySorts(rank, init);
      FilterInsert(rank, p, last, SortBy(rank, init));
      var kept := Filter(p, init);
      assert (kept + [last])[..|kept|] == kept;
    }
  }

  lemma {:induction false} FilterSorted<T>(rank: T -> int, p: T -> bool, xs: seq<T>)
    requires Sorted(rank, xs)
    ensures Sorted(rank, Filter(p, xs))
    decreases |xs|
  {
    if xs != [] {
      var init, last := xs[..|xs| - 1], xs[|xs| - 1];
      FilterSorted(rank, p, init);
      forall x | x in Filter(p, init) ensures rank(x) <= rank(last) {
        FilterMember(p, init, x);
      }
    }
  }

  // ----- rows found by a key -----------------------------------------------------

  function Lookup<T>(key: T -> nat, xs: seq<T>, k: nat): Option<T> {
    if xs == [] then None
    else if key(xs[|xs| - 1]) == k then Some(xs[|xs| - 1])
    else Lookup(key, xs[..|xs| - 1], k)
  }

  ghost predicate DistinctBy<T>(key: T -> nat, xs: seq<T>) {
    forall i, j :: 0 <= i < j < |xs| ==> key(xs[i]) != key(xs[j])
  }

  lemma {:induction false} LookupSound<T>(key: T -> nat, xs: seq<T>, k: nat)
    ensures Lookup(key, xs, k).Some? ==> Lookup(key, xs, k).value in xs && key(Lookup(key, xs, k).value) == k
    ensures Lookup(key, xs, k).None? ==> forall x :: x in xs ==> key(x) != k
    decreases |xs|
  {
    if xs != [] {
      LookupSound(key, xs[..|xs| - 1], k);
      assert xs == xs[..|xs| - 1] + [xs[|xs| - 1]];
    }
  }

  lemma LookupDistinct<T>(key: T -> nat, xs: seq<T>, x: T)
    requires DistinctBy(key, xs) && x in xs
    ensures Lookup(key, xs, key(x)) == Some(x)
  {
    LookupSound(key, xs, key(x));
  }

  lemma {:induction false} LookupAppend<T>(key: T -> nat, xs: seq<T>, ys: seq<T>, k: nat)
    requires forall y :: y in ys ==> key(y) != k
    ensures Lookup(key, xs + ys, k) == Lookup(key, xs, k)
    decreases |ys|
  {
    if ys == [] {
      assert xs + ys == xs;
    } else {
      assert (xs + ys)[..|xs + ys| - 1] == xs + ys[..|ys| - 1];
      LookupAppend(key, xs, ys[..|ys| - 1], k);
    }
  }

  lemma {:induction false} FilterDistinct<T>(key: T -> nat, p: T -> bool, xs: seq<T>)
    requires DistinctBy(key, xs)
    ensures DistinctBy(key, Filter(p, xs))
    decreases |xs|
  {
    if xs != [] {
      var init, last := xs[..|xs| - 1], xs[|xs| - 1];
      FilterDistinct(key, p, init);
      var kept := Filter(p, init);
      forall i | 0 <= i < |kept| ensures key(kept[i]) != key(last) {
        FilterMember(p, init, kept[i]);
      }
    }
  }

  lemma LookupFilter<T>(key: T -> nat, p: T -> bool, xs: seq<T>, k: nat)
    requires DistinctBy(key, xs)
    ensures Lookup(key, Filter(p, xs), k) ==
      if Lookup(key, xs, k).Some? && p(Lookup(key, xs, k).value) then Lookup(key, xs, k) else None
  {
    FilterDistinct(key, p, xs);
    LookupSound(key, xs, k);
    LookupSound(key, Filter(p, xs), k);
    var found, kept := Lookup(key, xs, k), Lookup(key, Filter(p, xs), k);
    if kept.Some? {
      FilterMember(p, xs, kept.value);
      LookupDistinct(key, xs, kept.value);
    } else if found.Some? {
      FilterMember(p, xs, found.value);
    }
  }

  lemma DistinctAppend<T>(key: T -> nat, xs: seq<T>, ys: seq<T>)
    requires DistinctBy(key, xs) && DistinctBy(key, ys)
    requires forall x, y :: x in xs && y in ys ==> key(x) != key(y)
    ensures DistinctBy(key, xs + ys)
  {
  }

  // ----- two sequences in step ------------------------------------------------

  /** Item for item the two are related. */
  ghost predicate InStep<T(!new), U(!new)>(rel: (T, U) -> bool, xs: seq<T>, ys: seq<U>) {
    |xs| == |ys| && forall i :: 0 <= i < |xs| ==> rel(xs[i], ys[i])
  }

  lemma InStepSnoc<T(!new), U(!new)>(rel: (T, U) -> bool, xs: seq<T>, ys: seq<U>, x: T, y: U)
    requires InStep(rel, xs, ys) && rel(x, y)
    ensures InStep(rel, xs + [x], ys + [y])
  {
  }

  lemma {:induction false} FilterInStep<T(!new), U(!new)>(rel: (T, U) -> bool, p: T -> bool, q: U -> bool,
      xs: seq<T>, ys: seq<U>)
    requires InStep(rel, xs, ys) && forall i :: 0 <= i < |xs| ==> p(xs[i]) == q(ys[i])
    ensures InStep(rel, Filter(p, xs), Filter(q, ys))
    decreases |xs|
  {
    if xs != [] {
      var n := |xs| - 1;
      FilterInStep(rel, p, q, xs[..n], ys[..n]);
      if p(xs[n]) {
        InStepSnoc(rel, Filter(p, xs[..n]), Filter(q, ys[..n]), xs[n], ys[n]);
      }
    }
  }

  lemma {:induction false} InsertInStep<T(!new), U(!new)>(rel: (T, U) -> bool, r: T -> int, q: U -> int, x: T,
      y: U, xs: seq<T>, ys: seq<U>)
    requires InStep(rel, xs, ys) && rel(x, y) && r(x) == q(y) && forall i :: 0 <= i < |xs| ==> r(xs[i]) == q(ys[i])
    ensures |Insert(r, x, xs)| == |xs| + 1 && InStep(rel, Insert(r, x, xs), Insert(q, y, ys))
    ensures forall i :: 0 <= i <= |xs| ==> r(Insert(r, x, xs)[i]) == q(Insert(q, y, ys)[i])
    decreases |xs|
  {
    if xs != [] {
      var n := |xs| - 1;
      InsertInStep(rel, r, q, x, y, xs[..n], ys[..n]);
      if r(xs[n]) > r(x) {
        InStepSnoc(rel, Insert(r, x, xs[..n]), Insert(q, y, ys[..n]), xs[n], ys[n]);
      } else {
        InStepSnoc(rel, xs, ys, x, y);
      }
    }
  }

  /** Sorting by ranks that agree keeps them in step. */
  lemma {:induction false} SortInStep<T(!new), U(!new)>(rel: (T, U) -> bool, r: T -> int, q: U -> int, xs: seq<T>,
      ys: seq<U>)
    requires InStep(rel, xs, ys) && forall i :: 0 <= i < |xs| ==> r(xs[i]) == q(ys[i])
    ensures |SortBy(r, xs)| == |xs| && InStep(rel, SortBy(r, xs), SortBy(q, ys))
    ensures forall i :: 0 <= i < |xs| ==> r(SortBy(r, xs)[i]) == q(SortBy(q, ys)[i])
    decreases |xs|
  {
    if xs != [] {
      var n := |xs| - 1;
      SortInStep(rel, r, q, xs[..n], ys[..n]);
      InsertInStep(rel, r, q, xs[n], ys[n], SortBy(r, xs[..n]), SortBy(q, ys[..n]));
    }
  }
}
