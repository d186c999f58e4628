/** `Array.prototype.sort` with a comparator, as a stable insertion sort.

    The sort JavaScript engines ship is stable, and a comparator result of
    `NaN` counts as `0`. For a comparator that is the difference of two
    integer keys, the result is in key order and keeps the input order among
    equal keys, and only one list does both (`SortByCharacterised`), so this
    model gives exactly the engine's result. For an inconsistent comparator,
    one that calls a equal to b and b equal to c but not a equal to c (as one
    that returns `0` whenever a key is missing does), the engine's order is
    implementation-defined and this model is one admissible choice. */
module Sorting {

  /** Inserts `x`, the next element of the input, after the last element `e`
      of the already sorted `t` with `cmp(e, x) <= 0`: where a stable sort
      puts an element that comes later in the input. */
  function Insert<T>(t: seq<T>, x: T, cmp: (T, T) -> int): (r: seq<T>)
    ensures |r| == |t| + 1
    ensures multiset(r) == multiset(t) + multiset{x}
    decreases |t|
  {
    if t == [] then [x]
    else if cmp(t[|t| - 1], x) > 0 then
      assert t == t[..|t| - 1] + [t[|t| - 1]];
      Insert(t[..|t| - 1], x, cmp) + [t[|t| - 1]]
    else t + [x]
  }

  /** `[...s].sort(cmp)`. */
  function SortBy<T>(s: seq<T>, cmp: (T, T) -> int): (r: seq<T>)
    ensures |r| == |s|
    ensures multiset(r) == multiset(s)
    decreases |s|
  {
    if s == [] then []
    else
      assert s == s[..|s| - 1] + [s[|s| - 1]];
      Insert(SortBy(s[..|s| - 1], cmp), s[|s| - 1], cmp)
  }

  /** Sorting one more element inserts it into the sorted rest. */
  lemma SortBySnoc<T>(s: seq<T>, x: T, cmp: (T, T) -> int)
    ensures SortBy(s + [x], cmp) == Insert(SortBy(s, cmp), x, cmp)
  {
    assert (s + [x])[..|s|] == s;
  }

  /** `s` is in non-decreasing order of `key`. */
  ghost predicate SortedOn<T>(s: seq<T>, key: T -> int) {
    forall i, j :: 0 <= i < j < |s| ==> key(s[i]) <= key(s[j])
  }

  /** On the elements of `s`, `cmp` is the JavaScript idiom
      `(a, b) => key(a) - key(b)`. */
  ghost predicate ComparesByKey<T>(s: seq<T>, cmp: (T, T) -> int, key: T -> int) {
    forall a, b :: a in s && b in s ==> cmp(a, b) == key(a) - key(b)
  }

  lemma {:induction false} InsertSorted<T>(t: seq<T>, x: T, cmp: (T, T) -> int, key: T -> int)
    requires SortedOn(t, key)
    requires forall e :: e in t ==> cmp(e, x) == key(e) - key(x)
    ensures SortedOn(Insert(t, x, cmp), key)
    decreases |t|
  {
    if t == [] {
    } else if cmp(t[|t| - 1], x) > 0 {
      var n := |t| - 1;
      var last, init := t[n], t[..n];
      assert last in t;
      assert key(x) < key(last);
      InsertSorted(init, x, cmp, key);
      var r0 := Insert(init, x, cmp);
      BoundedByLast(t, x, cmp, key);
      assert Insert(t, x, cmp) == r0 + [last];
    } else {
      assert t[|t| - 1] in t;
    }
  }

  /** Every element of `Insert(init, x)` is at most the key of `t`'s last
      element, when that element's key exceeds `x`'s. */
  lemma BoundedByLast<T>(t: seq<T>, x: T, cmp: (T, T) -> int, key: T -> int)
    requires t != [] && SortedOn(t, key) && key(x) < key(t[|t| - 1])
    ensures forall e :: e in Insert(t[..|t| - 1], x, cmp) ==> key(e) <= key(t[|t| - 1])
  {
    var n := |t| - 1;
    forall e | e in Insert(t[..n], x, cmp)
      ensures key(e) <= key(t[n])
    {
      assert e in multiset(t[..n]) + multiset{x};
      if e != x {
        var i :| 0 <= i < n && t[..n][i] == e;
        assert t[i] == e;
      }
    }
  }

  /** Sorting with a key-difference comparator orders the result by key. */
  lemma {:induction false} SortBySorted<T>(s: seq<T>, cmp: (T, T) -> int, key: T -> int)
    requires ComparesByKey(s, cmp, key)
    ensures SortedOn(SortBy(s, cmp), key)
    decreases |s|
  {
    if s != [] {
      var n := |s| - 1;
      var init, last := s[..n], s[n];
      assert s == init + [last];
      var sorted := SortBy(init, cmp);
      PrefixComparesByKey(s, init, sorted, cmp, key);
      SortBySorted(init, cmp, key);
      InsertSorted(sorted, last, cmp, key);
    }
  }

  /** The comparator keeps comparing by key on the first `|s| - 1`
      elements, however they are ordered, and against the last one. */
  lemma PrefixComparesByKey<T>(s: seq<T>, init: seq<T>, sorted: seq<T>, cmp: (T, T) -> int, key: T -> int)
    requires ComparesByKey(s, cmp, key)
    requires s != [] && init == s[..|s| - 1] && multiset(sorted) == multiset(init)
    ensures ComparesByKey(init, cmp, key)
    ensures forall e :: e in sorted ==> cmp(e, s[|s| - 1]) == key(e) - key(s[|s| - 1])
  {
    assert forall e :: e in init ==> e in s;
    forall e | e in sorted
      ensures cmp(e, s[|s| - 1]) == key(e) - key(s[|s| - 1])
    {
      assert e in multiset(init);
    }
  }

  /** A list whose neighbours the comparator never calls out of order comes
      back unchanged: in particular a comparator that always answers `0`. */
  lemma {:induction false} SortByOrdered<T>(s: seq<T>, cmp: (T, T) -> int)
    requires forall i, j :: 0 <= i < |s| && j == i + 1 < |s| ==> cmp(s[i], s[j]) <= 0
    ensures SortBy(s, cmp) == s
    decreases |s|
  {
    if s != [] {
      var n := |s| - 1;
      var init, last := s[..n], s[n];
      assert s == init + [last];
      OrderedPrefix(s, init, cmp);
      SortByOrdered(init, cmp);
      assert init == [] || cmp(init[n - 1], last) <= 0 by {
        if init != [] {
          assert init[n - 1] == s[n - 1];
        }
      }
      InsertAfterLast(init, last, cmp);
    }
  }

  /** Dropping the last element keeps neighbours in order. */
  lemma OrderedPrefix<T>(s: seq<T>, init: seq<T>, cmp: (T, T) -> int)
    requires s != [] && init == s[..|s| - 1]
    requires forall i, j :: 0 <= i < |s| && j == i + 1 < |s| ==> cmp(s[i], s[j]) <= 0
    ensures forall i, j :: 0 <= i < |init| && j == i + 1 < |init| ==> cmp(init[i], init[j]) <= 0
  {
    forall i, j | 0 <= i < |init| && j == i + 1 < |init|
      ensures cmp(init[i], init[j]) <= 0
    {
      assert init[i] == s[i] && init[j] == s[j];
    }
  }

  /** An element that the comparator does not put before the last one is
      appended. */
  lemma InsertAfterLast<T>(t: seq<T>, x: T, cmp: (T, T) -> int)
    requires t == [] || cmp(t[|t| - 1], x) <= 0
    ensures Insert(t, x, cmp) == t + [x]
  {
  }

  /** The elements of `s` whose key is `v`, in the order of `s`. */
  ghost function WithKey<T>(s: seq<T>, key: T -> int, v: int): seq<T>
    decreases |s|
  {
    if s == [] then []
    else WithKey(s[..|s| - 1], key, v) + (if key(s[|s| - 1]) == v then [s[|s| - 1]] else [])
  }

  /** Every element of `WithKey(s, key, v)` is an element of `s` with key
      `v`. */
  lemma {:induction false} WithKeyMembers<T>(s: seq<T>, key: T -> int, v: int)
    ensures forall e :: e in WithKey(s, key, v) ==> e in s && key(e) == v
    decreases |s|
  {
    if s != [] {
      var n := |s| - 1;
      WithKeyMembers(s[..n], key, v);
      assert forall e :: e in s[..n] ==> e in s;
    }
  }

  /** Appending one element extends the elements with its key by it. */
  lemma WithKeySnoc<T>(t: seq<T>, x: T, key: T -> int, v: int)
    ensures WithKey(t + [x], key, v) == WithKey(t, key, v) + (if key(x) == v then [x] else [])
  {
    assert (t + [x])[..|t|] == t;
  }

  /** Inserting `x` adds `x` after the elements with its key and leaves the
      elements with every other key as they were. */
  lemma {:induction false} InsertStable<T>(t: seq<T>, x: T, cmp: (T, T) -> int, key: T -> int, v: int)
    requires forall e :: e in t ==> cmp(e, x) == key(e) - key(x)
    ensures WithKey(Insert(t, x, cmp), key, v) == WithKey(t, key, v) + (if key(x) == v then [x] else [])
    decreases |t|
  {
    if t != [] && cmp(t[|t| - 1], x) > 0 {
      var n := |t| - 1;
      var init := t[..n];
      assert forall e :: e in init ==> e in t;
      InsertStable(init, x, cmp, key, v);
      InsertBefore(t, init, x, cmp, key, v);
    } else {
      WithKeySnoc(t, x, key, v);
    }
  }

  /** The step of `InsertStable` where `x` goes before the last element of
      `t`, given the result for the others. */
  lemma InsertBefore<T>(t: seq<T>, init: seq<T>, x: T, cmp: (T, T) -> int, key: T -> int, v: int)
    requires t != [] && init == t[..|t| - 1] && cmp(t[|t| - 1], x) > 0
    requires cmp(t[|t| - 1], x) == key(t[|t| - 1]) - key(x)
    requires WithKey(Insert(init, x, cmp), key, v) == WithKey(init, key, v) + (if key(x) == v then [x] else [])
    ensures WithKey(Insert(t, x, cmp), key, v) == WithKey(t, key, v) + (if key(x) == v then [x] else [])
  {
    var last := t[|t| - 1];
    var a := Insert(init, x, cmp);
    InsertUnfold(t, init, x, cmp);
    WithKeySnoc(a, last, key, v);
    WithKeySnoc(init, last, key, v);
    if key(last) == v {
      assert key(x) != v;
      assert WithKey(a, key, v) == WithKey(init, key, v);
    } else {
      assert WithKey(t, key, v) == WithKey(init, key, v);
    }
  }

  /** Inserting `x` before the last element of `t`. */
  lemma InsertUnfold<T>(t: seq<T>, init: seq<T>, x: T, cmp: (T, T) -> int)
    requires t != [] && init == t[..|t| - 1] && cmp(t[|t| - 1], x) > 0
    ensures t == init + [t[|t| - 1]]
    ensures Insert(t, x, cmp) == Insert(init, x, cmp) + [t[|t| - 1]]
  {
  }

  /** Stability: sorting with a key-difference comparator keeps the elements
      with each key in their input order. */
  lemma {:induction false} SortByStable<T>(s: seq<T>, cmp: (T, T) -> int, key: T -> int)
    requires ComparesByKey(s, cmp, key)
    ensures forall v :: WithKey(SortBy(s, cmp), key, v) == WithKey(s, key, v)
    decreases |s|
  {
    if s != [] {
      var n := |s| - 1;
      var init, last := s[..n], s[n];
      assert s == init + [last];
      var sorted := SortBy(init, cmp);
      PrefixComparesByKey(s, init, sorted, cmp, key);
      SortByStable(init, cmp, key);
      forall v
        ensures WithKey(SortBy(s, cmp), key, v) == WithKey(s, key, v)
      {
        InsertStable(sorted, last, cmp, key, v);
        WithKeySnoc(init, last, key, v);
      }
    }
  }

  /** Two lists in key order whose elements with each key agree, in order,
      are equal. */
  lemma {:induction false} SortedStableUnique<T>(r1: seq<T>, r2: seq<T>, key: T -> int)
    requires SortedOn(r1, key) && SortedOn(r2, key)
    requires forall v :: WithKey(r1, key, v) == WithKey(r2, key, v)
    ensures r1 == r2
    decreases |r1|
  {
    if r1 == [] || r2 == [] {
      NonEmptyHasKey(r1, key);
      NonEmptyHasKey(r2, key);
    } else {
      var n1, n2 := |r1| - 1, |r2| - 1;
      var init1, init2 := r1[..n1], r2[..n2];
      var x1, x2 := r1[n1], r2[n2];
      assert r1 == init1 + [x1] && r2 == init2 + [x2];
      NonEmptyHasKey(r1, key);
      NonEmptyHasKey(r2, key);
      AtMostLastKey(r2, key, key(x1));
      AtMostLastKey(r1, key, key(x2));
      var m := key(x1);
      WithKeySnoc(init1, x1, key, m);
      WithKeySnoc(init2, x2, key, m);
      LastOfSnoc(WithKey(init1, key, m), x1, WithKey(init2, key, m), x2);
      assert key(x2) == m;
      forall v
        ensures WithKey(init1, key, v) == WithKey(init2, key, v)
      {
        WithKeySnoc(init1, x1, key, v);
        WithKeySnoc(init2, x2, key, v);
        if v != m {
          assert WithKey(r1, key, v) == WithKey(init1, key, v);
          assert WithKey(r2, key, v) == WithKey(init2, key, v);
        }
      }
      SortedPrefix(r1, init1, key);
      SortedPrefix(r2, init2, key);
      SortedStableUnique(init1, init2, key);
    }
  }

  /** Equal lists that end in `x` and `y` end in the same element and agree
      before it. */
  lemma LastOfSnoc<T>(a: seq<T>, x: T, b: seq<T>, y: T)
    requires a + [x] == b + [y]
    ensures a == b && x == y
  {
    assert |a| == |b|;
    assert a == (a + [x])[..|a|] && b == (b + [y])[..|b|];
    assert x == (a + [x])[|a|] && y == (b + [y])[|b|];
  }

  /** A non-empty list has elements with the key of its last element. */
  lemma NonEmptyHasKey<T>(s: seq<T>, key: T -> int)
    ensures s != [] ==> WithKey(s, key, key(s[|s| - 1])) != []
  {
    if s != [] {
      WithKeySnoc(s[..|s| - 1], s[|s| - 1], key, key(s[|s| - 1]));
      assert s == s[..|s| - 1] + [s[|s| - 1]];
    }
  }

  /** In a list in key order, a key that some element has is at most the
      last element's key. */
  lemma AtMostLastKey<T>(s: seq<T>, key: T -> int, v: int)
    requires s != [] && SortedOn(s, key) && WithKey(s, key, v) != []
    ensures v <= key(s[|s| - 1])
  {
    WithKeyMembers(s, key, v);
    var e := WithKey(s, key, v)[0];
    assert e in WithKey(s, key, v);
    var i :| 0 <= i < |s| && s[i] == e;
  }

  /** A prefix of a list in key order is in key order. */
  lemma SortedPrefix<T>(s: seq<T>, init: seq<T>, key: T -> int)
    requires SortedOn(s, key) && s != [] && init == s[..|s| - 1]
    ensures SortedOn(init, key)
  {
    forall i, j | 0 <= i < j < |init|
      ensures key(init[i]) <= key(init[j])
    {
      assert init[i] == s[i] && init[j] == s[j];
    }
  }

  /** The engine's stable sort by a key-difference comparator is the one
      list in key order that keeps the input order among equal keys. */
  lemma SortByCharacterised<T>(s: seq<T>, cmp: (T, T) -> int, key: T -> int, r: seq<T>)
    requires ComparesByKey(s, cmp, key)
    requires SortedOn(r, key) && forall v :: WithKey(r, key, v) == WithKey(s, key, v)
    ensures r == SortBy(s, cmp)
  {
    SortBySorted(s, cmp, key);
    SortByStable(s, cmp, key);
    SortedStableUnique(r, SortBy(s, cmp), key);
  }
}
