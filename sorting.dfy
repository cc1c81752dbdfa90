/**
 * `Array.prototype.sort` with a numeric comparator `(a, b) => key(a) - key(b)`. Since ECMAScript 2019 the
 * sort is stable, so its result is determined: the elements ordered by key, with equal keys in their
 * original order. `SortBy` is that result, built by insertion from the end; `SortInPlace` is the in-place
 * sort proved to produce it.
 */
module Sorting {
  predicate SortedBy<T>(s: seq<T>, key: T -> int) {
    forall i, j :: 0 <= i < j < |s| ==> key(s[i]) <= key(s[j])
  }

  /** `s` with `x` placed after every element whose key is at most `x`'s, counted from the end. */
  function InsertSorted<T>(s: seq<T>, x: T, key: T -> int): seq<T>
    decreases |s|
  {
    if s == [] || key(s[|s| - 1]) <= key(x) then s + [x]
    else InsertSorted(s[..|s| - 1], x, key) + [s[|s| - 1]]
  }

  /** The stable sort of `s` by `key`. */
  function SortBy<T>(s: seq<T>, key: T -> int): seq<T>
    decreases |s|
  {
    if s == [] then [] else InsertSorted(SortBy(s[..|s| - 1], key), s[|s| - 1], key)
  }

  /** The elements of `s` whose key is `k`, in order. */
  function WithKey<T>(s: seq<T>, k: int, key: T -> int): seq<T>
    decreases |s|
  {
    if s == [] then []
    else WithKey(s[..|s| - 1], k, key) + (if key(s[|s| - 1]) == k then [s[|s| - 1]] else [])
  }

  // ---------------------------------------------------------------------------------------------

  lemma WithKeySnoc<T>(s: seq<T>, y: T, k: int, key: T -> int)
    ensures WithKey(s + [y], k, key) == WithKey(s, k, key) + (if key(y) == k then [y] else [])
  {
    assert (s + [y])[..|s|] == s;
  }

  lemma {:induction false} InsertSortedPerm<T>(s: seq<T>, x: T, key: T -> int)
    ensures multiset(InsertSorted(s, x, key)) == multiset(s) + multiset{x}
    decreases |s|
  {
    if s != [] && key(s[|s| - 1]) > key(x) {
      var init := s[..|s| - 1];
      assert s == init + [s[|s| - 1]];
      InsertSortedPerm(init, x, key);
    }
  }

  lemma {:induction false} InsertSortedSorted<T>(s: seq<T>, x: T, key: T -> int)
    requires SortedBy(s, key)
    ensures SortedBy(InsertSorted(s, x, key), key)
    decreases |s|
  {
    if s != [] && key(s[|s| - 1]) > key(x) {
      var init, last := s[..|s| - 1], s[|s| - 1];
      assert SortedBy(init, key);
      InsertSortedSorted(init, x, key);
      InsertSortedPerm(init, x, key);
      var r' := InsertSorted(init, x, key);
      assert forall i :: 0 <= i < |r'| ==> key(r'[i]) <= key(last) by {
        forall i | 0 <= i < |r'| ensures key(r'[i]) <= key(last) {
          assert r'[i] in multiset(r');
          if r'[i] != x {
            assert r'[i] in multiset(init);
            var m :| 0 <= m < |init| && init[m] == r'[i];
            assert key(s[m]) <= key(s[|s| - 1]);
          }
        }
      }
      assert InsertSorted(s, x, key) == r' + [last];
    }
  }

  lemma {:induction false} InsertSortedWithKey<T>(s: seq<T>, x: T, k: int, key: T -> int)
    ensures WithKey(InsertSorted(s, x, key), k, key) == WithKey(s, k, key) + (if key(x) == k then [x] else [])
    decreases |s|
  {
    if s == [] || key(s[|s| - 1]) <= key(x) {
      WithKeySnoc(s, x, k, key);
    } else {
      var init, last := s[..|s| - 1], s[|s| - 1];
      InsertSortedWithKey(init, x, k, key);
      WithKeySnoc(InsertSorted(init, x, key), last, k, key);
      assert WithKey(s, k, key) == WithKey(init, k, key) + (if key(last) == k then [last] else []);
    }
  }

  /** The sort produces a key-ordered permutation of its input in which equal keys keep their order. */
  lemma {:induction false} SortByFacts<T>(s: seq<T>, key: T -> int)
    ensures SortedBy(SortBy(s, key), key)
    ensures multiset(SortBy(s, key)) == multiset(s)
    ensures forall k :: WithKey(SortBy(s, key), k, key) == WithKey(s, k, key)
    decreases |s|
  {
    if s != [] {
      var init, last := s[..|s| - 1], s[|s| - 1];
      SortByFacts(init, key);
      InsertSortedSorted(SortBy(init, key), last, key);
      InsertSortedPerm(SortBy(init, key), last, key);
      assert s == init + [last];
      forall k ensures WithKey(SortBy(s, key), k, key) == WithKey(s, k, key) {
        InsertSortedWithKey(SortBy(init, key), last, k, key);
      }
    }
  }

  lemma {:induction false} SortBySortedInput<T>(s: seq<T>, key: T -> int)
    requires SortedBy(s, key)
    ensures SortBy(s, key) == s
    decreases |s|
  {
    if s != [] {
      var init := s[..|s| - 1];
      assert SortedBy(init, key);
      SortBySortedInput(init, key);
      assert s == init + [s[|s| - 1]];
    }
  }

  /** Inserting past a suffix of larger keys goes through that suffix. */
  lemma {:induction false} InsertSortedSplit<T>(s: seq<T>, x: T, key: T -> int, j: nat)
    requires j <= |s| && forall i :: j <= i < |s| ==> key(s[i]) > key(x)
    ensures InsertSorted(s, x, key) == InsertSorted(s[..j], x, key) + s[j..]
    decreases |s| - j
  {
    if j < |s| {
      var init, last := s[..|s| - 1], s[|s| - 1];
      assert InsertSorted(s, x, key) == InsertSorted(init, x, key) + [last];
      assert init[..j] == s[..j];
      InsertSortedSplit(init, x, key, j);
      assert s[j..] == init[j..] + [last];
    } else {
      assert s[..j] == s;
    }
  }

  /** The `while` of one insertion step: shifts right, by one place, the elements before `a[i]` whose key exceeds `key(x)`. */
  method ShiftLarger<T>(a: array<T>, i: nat, x: T, key: T -> int) returns (j: nat)
    requires i < a.Length
    modifies a
    ensures j <= i
    ensures forall m :: 0 <= m < j ==> a[m] == old(a[m])
    ensures forall m :: j < m <= i ==> a[m] == old(a[m - 1])
    ensures forall m :: i < m < a.Length ==> a[m] == old(a[m])
    ensures forall m :: j <= m < i ==> key(old(a[m])) > key(x)
    ensures j > 0 ==> key(old(a[j - 1])) <= key(x)
  {
    j := i;
    while j > 0 && key(a[j - 1]) > key(x)
      invariant 0 <= j <= i
      invariant forall m :: 0 <= m < j ==> a[m] == old(a[m])
      invariant forall m :: j < m <= i ==> a[m] == old(a[m - 1])
      invariant forall m :: i < m < a.Length ==> a[m] == old(a[m])
      invariant forall m :: j <= m < i ==> key(old(a[m])) > key(x)
    {
      a[j] := a[j - 1];
      j := j - 1;
    }
  }

  /** Moves `a[i]` left past the larger keys before it: one insertion step. */
  method InsertAt<T>(a: array<T>, i: nat, key: T -> int)
    requires i < a.Length
    modifies a
    ensures a[..i + 1] == InsertSorted(old(a[..i]), old(a[i]), key)
    ensures a[i + 1..] == old(a[i + 1..])
  {
    ghost var p := a[..i];
    ghost var rest := a[i + 1..];
    var x := a[i];
    var j := ShiftLarger(a, i, x, key);
    a[j] := x;
    InsertSortedSplit(p, x, key, j);
    assert InsertSorted(p[..j], x, key) == p[..j] + [x];
    assert a[..i + 1] == p[..j] + [x] + p[j..i] by {
      forall m | 0 <= m <= i ensures a[..i + 1][m] == (p[..j] + [x] + p[j..i])[m] {
        if m < j { assert a[m] == p[m]; } else if m > j { assert a[m] == p[m - 1]; }
      }
    }
    assert a[i + 1..] == rest by {
      forall m | 0 <= m < |rest| ensures a[i + 1..][m] == rest[m] {
        assert a[i + 1 + m] == old(a[i + 1 + m]);
      }
    }
  }

  lemma SortBySnoc<T>(s: seq<T>, i: nat, key: T -> int)
    requires i < |s|
    ensures SortBy(s[..i + 1], key) == InsertSorted(SortBy(s[..i], key), s[i], key)
  {
    assert s[..i + 1][..i] == s[..i];
  }

  /** Insertion sort in place; the result is the stable sort of the original contents. */
  method SortInPlace<T>(a: array<T>, key: T -> int)
    modifies a
    ensures a[..] == SortBy(old(a[..]), key)
  {
    ghost var orig := a[..];
    var i := 0;
    while i < a.Length
      invariant 0 <= i <= a.Length
      invariant a[..i] == SortBy(orig[..i], key)
      invariant a[i..] == orig[i..]
    {
      ghost var pre := a[..];
      assert pre[..i] == SortBy(orig[..i], key) && pre[i] == orig[i];
      assert pre[i + 1..] == orig[i + 1..] by { assert pre[i + 1..] == pre[i..][1..]; }
      InsertAt(a, i, key);
      SortBySnoc(orig, i, key);
      i := i + 1;
    }
    assert orig[..a.Length] == orig;
  }
}
