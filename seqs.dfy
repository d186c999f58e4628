/** The array operations the task handlers are built from: `filter` on one
    field of a record, `map`, `find` and `splice`. A field selector is passed
    as a named function so that every use of one filter is the same term. */
module Seqs {
  import opened Common

  /** `s.filter(x => field(x) === v)` when `keep`, and
      `s.filter(x => field(x) !== v)` otherwise; the order of `s` is kept. */
  function Filter<T(==,!new)>(s: seq<T>, field: T -> string, v: string, keep: bool): (r: seq<T>)
    ensures |r| <= |s|
    ensures forall x {:trigger multiset(r)[x]} :: multiset(r)[x] == if (field(x) == v) == keep then multiset(s)[x] else 0
    decreases |s|
  {
    if s == [] then []
    else
      assert s == [s[0]] + s[1..];
      (if (field(s[0]) == v) == keep then [s[0]] else []) + Filter(s[1..], field, v, keep)
  }

  /** Filtering distributes over concatenation. */
  lemma {:induction false} FilterConcat<T(!new)>(a: seq<T>, b: seq<T>, field: T -> string, v: string, keep: bool)
    ensures Filter(a + b, field, v, keep) == Filter(a, field, v, keep) + Filter(b, field, v, keep)
    decreases |a|
  {
    if a == [] {
      assert a + b == b;
    } else {
      assert (a + b)[0] == a[0];
      assert (a + b)[1..] == a[1..] + b;
      FilterConcat(a[1..], b, field, v, keep);
    }
  }

  /** A filter that every element passes is the identity. */
  lemma {:induction false} FilterAll<T(!new)>(s: seq<T>, field: T -> string, v: string, keep: bool)
    requires forall i :: 0 <= i < |s| ==> (field(s[i]) == v) == keep
    ensures Filter(s, field, v, keep) == s
    decreases |s|
  {
    if s != [] {
      FilterAll(s[1..], field, v, keep);
    }
  }

  /** A filter that no element passes is empty. */
  lemma FilterNone<T(!new)>(s: seq<T>, field: T -> string, v: string, keep: bool)
    requires forall x :: x in s ==> (field(x) == v) != keep
    ensures Filter(s, field, v, keep) == []
  {
    var r := Filter(s, field, v, keep);
    assert multiset(r) == multiset{};
  }

  /** The two filters on one field split `s` between them. */
  lemma FilterPartition<T(!new)>(s: seq<T>, field: T -> string, v: string)
    ensures multiset(Filter(s, field, v, true)) + multiset(Filter(s, field, v, false)) == multiset(s)
    ensures |Filter(s, field, v, true)| + |Filter(s, field, v, false)| == |s|
  {
    var a, b := Filter(s, field, v, true), Filter(s, field, v, false);
    assert multiset(a) + multiset(b) == multiset(s);
    assert |multiset(a) + multiset(b)| == |multiset(s)|;
  }

  /** Every element of a filter comes from `s` and passes the test; every
      element of `s` that passes is in the filter. */
  lemma FilterMembership<T(!new)>(s: seq<T>, field: T -> string, v: string, keep: bool)
    ensures forall i :: 0 <= i < |Filter(s, field, v, keep)| ==>
      Filter(s, field, v, keep)[i] in s && (field(Filter(s, field, v, keep)[i]) == v) == keep
    ensures forall x :: x in Filter(s, field, v, keep) <==> x in s && (field(x) == v) == keep
  {
    var r := Filter(s, field, v, keep);
    forall i | 0 <= i < |r|
      ensures r[i] in s && (field(r[i]) == v) == keep
    {
      assert r[i] in multiset(r);
    }
    forall x
      ensures x in r <==> x in s && (field(x) == v) == keep
    {
      assert x in r <==> x in multiset(r);
    }
  }

  /** A list made of elements that fail the test followed by elements that
      pass it splits back into those two parts. */
  lemma FilterSplit<T(!new)>(a: seq<T>, b: seq<T>, field: T -> string, v: string)
    requires forall i :: 0 <= i < |a| ==> field(a[i]) != v
    requires forall i :: 0 <= i < |b| ==> field(b[i]) == v
    ensures Filter(a + b, field, v, true) == b
    ensures Filter(a + b, field, v, false) == a
  {
    FilterConcat(a, b, field, v, true);
    FilterConcat(a, b, field, v, false);
    FilterAll(a, field, v, false);
    FilterAll(b, field, v, true);
    FilterNoneAt(a, field, v, true);
    FilterNoneAt(b, field, v, false);
  }

  /** `FilterNone` with the hypothesis by index. */
  lemma FilterNoneAt<T(!new)>(s: seq<T>, field: T -> string, v: string, keep: bool)
    requires forall i :: 0 <= i < |s| ==> (field(s[i]) == v) != keep
    ensures Filter(s, field, v, keep) == []
  {
    FilterNone(s, field, v, keep);
  }

  /** Filters on two fields commute. */
  lemma {:induction false} FilterCommute<T(!new)>(s: seq<T>, f: T -> string, v: string, keepF: bool, g: T -> string, w: string, keepG: bool)
    ensures Filter(Filter(s, f, v, keepF), g, w, keepG) == Filter(Filter(s, g, w, keepG), f, v, keepF)
    decreases |s|
  {
    if s != [] {
      assert s == [s[0]] + s[1..];
      FilterCommute(s[1..], f, v, keepF, g, w, keepG);
      FilterConcat(if (f(s[0]) == v) == keepF then [s[0]] else [], Filter(s[1..], f, v, keepF), g, w, keepG);
      FilterConcat(if (g(s[0]) == w) == keepG then [s[0]] else [], Filter(s[1..], g, w, keepG), f, v, keepF);
    }
  }

  /** No two elements of `s` agree on `field`. */
  ghost predicate UniqueBy<T>(s: seq<T>, field: T -> string) {
    forall i, j :: 0 <= i < j < |s| ==> field(s[i]) != field(s[j])
  }

  /** When `field` is a key, filtering out the key of `s[i]` removes exactly
      `s[i]`. */
  lemma {:induction false} FilterOutUnique<T(!new)>(s: seq<T>, field: T -> string, i: nat)
    requires UniqueBy(s, field) && i < |s|
    ensures Filter(s, field, field(s[i]), false) == s[..i] + s[i + 1..]
    decreases |s|
  {
    var v := field(s[i]);
    var t := s[1..];
    assert s == [s[0]] + t;
    assert UniqueBy(t, field) by {
      UniqueByTail(s, field);
    }
    if i == 0 {
      forall k | 0 <= k < |t|
        ensures field(t[k]) != v
      {
        assert t[k] == s[k + 1];
      }
      FilterAll(t, field, v, false);
    } else {
      assert field(s[0]) != v;
      assert t[i - 1] == s[i];
      FilterOutUnique(t, field, i - 1);
      assert s[..i] == [s[0]] + t[..i - 1];
      assert s[i + 1..] == t[i..];
    }
  }

  /** `s.map(f)`. */
  function Map<T, U>(s: seq<T>, f: T -> U): (r: seq<U>)
    ensures |r| == |s|
    ensures forall i :: 0 <= i < |s| ==> r[i] == f(s[i])
    decreases |s|
  {
    if s == [] then [] else [f(s[0])] + Map(s[1..], f)
  }

  /** Mapping distributes over concatenation. */
  lemma {:induction false} MapConcat<T, U>(a: seq<T>, b: seq<T>, f: T -> U)
    ensures Map(a + b, f) == Map(a, f) + Map(b, f)
    decreases |a|
  {
    if a == [] {
      assert a + b == b;
    } else {
      assert (a + b)[1..] == a[1..] + b;
      MapConcat(a[1..], b, f);
    }
  }

  /** Mapping a permutation gives a permutation. */
  lemma {:induction false} MapPermutation<T, U>(a: seq<T>, b: seq<T>, f: T -> U)
    requires multiset(a) == multiset(b)
    ensures multiset(Map(a, f)) == multiset(Map(b, f))
    decreases |a|
  {
    if a == [] {
      assert |multiset(b)| == 0;
    } else {
      assert a[0] in multiset(b);
      var i :| 0 <= i < |b| && b[i] == a[0];
      RemovalRest(a, b, i);
      MapPermutation(a[1..], b[..i] + b[i + 1..], f);
      MapRemoval(b, i, f);
      assert Map(a, f) == [f(a[0])] + Map(a[1..], f);
    }
  }

  /** Two permutations that start with the same element, the first at the
      front and the second at `i`, stay permutations without it. */
  lemma RemovalRest<T>(a: seq<T>, b: seq<T>, i: nat)
    requires multiset(a) == multiset(b) && a != [] && i < |b| && b[i] == a[0]
    ensures multiset(a[1..]) == multiset(b[..i] + b[i + 1..])
  {
    var x := a[0];
    assert a == [x] + a[1..];
    assert multiset(a) == multiset(a[1..]) + multiset{x};
    RemovalMultiset(b, i);
    var m, r := multiset(a[1..]), multiset(b[..i] + b[i + 1..]);
    assert m == (m + multiset{x}) - multiset{x};
    assert r == (r + multiset{x}) - multiset{x};
  }

  /** Taking `s[i]` out of `s` takes one `s[i]` out of its multiset. */
  lemma RemovalMultiset<T>(s: seq<T>, i: nat)
    requires i < |s|
    ensures multiset(s) == multiset(s[..i] + s[i + 1..]) + multiset{s[i]}
  {
    var pre, post := s[..i], s[i + 1..];
    assert s == pre + [s[i]] + post;
    assert multiset(s) == multiset(pre) + multiset{s[i]} + multiset(post);
    assert multiset(pre + post) == multiset(pre) + multiset(post);
  }

  /** Mapping `s` gives the image of `s[i]` and the image of the rest. */
  lemma MapRemoval<T, U>(s: seq<T>, i: nat, f: T -> U)
    requires i < |s|
    ensures multiset(Map(s, f)) == multiset(Map(s[..i] + s[i + 1..], f)) + multiset{f(s[i])}
  {
    MapSlices(s, s[..i] + s[i + 1..], i, f);
    RemovalMultiset(Map(s, f), i);
  }

  /** Mapping commutes with taking out one element. */
  lemma MapSlices<T, U>(s: seq<T>, rest: seq<T>, i: nat, f: T -> U)
    requires i < |s| && rest == s[..i] + s[i + 1..]
    ensures Map(rest, f) == Map(s, f)[..i] + Map(s, f)[i + 1..]
  {
    var m, mr := Map(s, f), Map(rest, f);
    var cut := m[..i] + m[i + 1..];
    forall k | 0 <= k < |rest|
      ensures mr[k] == cut[k]
    {
      if k < i {
        assert rest[k] == s[k] && cut[k] == m[k];
      } else {
        assert rest[k] == s[k + 1] && cut[k] == m[k + 1];
      }
    }
  }

  /** When `field` is a key, filtering out the key of an element takes
      exactly that key away from the keys. */
  lemma FilterOutKeys<T(!new)>(s: seq<T>, field: T -> string, x: T)
    requires UniqueBy(s, field) && x in s
    ensures multiset(Map(s, field)) == multiset(Map(Filter(s, field, field(x), false), field)) + multiset{field(x)}
  {
    var i :| 0 <= i < |s| && s[i] == x;
    FilterOutUnique(s, field, i);
    MapRemoval(s, i, field);
  }

  /** Filtering out a key leaves no element with that key. */
  lemma FilterOutNoKey<T(!new)>(s: seq<T>, field: T -> string, v: string)
    ensures multiset(Map(Filter(s, field, v, false), field))[v] == 0
  {
    var rest := Filter(s, field, v, false);
    FilterMembership(s, field, v, false);
    assert forall j :: 0 <= j < |rest| ==> Map(rest, field)[j] != v;
  }

  /** When `field` is a key, each key occurs at most once among the keys. */
  lemma {:induction false} UniqueKeysOnce<T>(s: seq<T>, field: T -> string)
    requires UniqueBy(s, field)
    ensures forall k :: multiset(Map(s, field))[k] <= 1
    decreases |s|
  {
    if s != [] {
      var t := s[1..];
      UniqueByTail(s, field);
      UniqueKeysOnce(t, field);
      assert field(s[0]) !in Map(t, field) by {
        forall j | 0 <= j < |t|
          ensures Map(t, field)[j] != field(s[0])
        {
          assert t[j] == s[j + 1];
        }
      }
      assert Map(s, field) == [field(s[0])] + Map(t, field);
    }
  }

  /** Two positions with one value make that value occur at least twice. */
  lemma RepeatCounts<U>(m: seq<U>, i: nat, j: nat)
    requires i < j < |m| && m[i] == m[j]
    ensures multiset(m)[m[j]] >= 2
  {
    assert m == m[..j] + [m[j]] + m[j + 1..];
    assert m[i] == m[..j][i];
    assert multiset(m) == multiset(m[..j]) + multiset{m[j]} + multiset(m[j + 1..]);
  }

  /** A list whose keys are a permutation of unique keys has unique keys. */
  lemma UniqueByPermutation<T>(a: seq<T>, b: seq<T>, field: T -> string)
    requires UniqueBy(a, field) && multiset(Map(a, field)) == multiset(Map(b, field))
    ensures UniqueBy(b, field)
  {
    UniqueKeysOnce(a, field);
    forall i, j | 0 <= i < j < |b|
      ensures field(b[i]) != field(b[j])
    {
      if field(b[i]) == field(b[j]) {
        RepeatCounts(Map(b, field), i, j);
      }
    }
  }

  /** A filter of a list with unique keys has unique keys. */
  lemma {:induction false} FilterUniqueBy<T(!new)>(s: seq<T>, field: T -> string, g: T -> string, w: string, keep: bool)
    requires UniqueBy(s, field)
    ensures UniqueBy(Filter(s, g, w, keep), field)
    decreases |s|
  {
    if s != [] {
      var t := s[1..];
      UniqueByTail(s, field);
      FilterUniqueBy(t, field, g, w, keep);
      var rest := Filter(t, g, w, keep);
      if (g(s[0]) == w) == keep {
        FilterMembership(t, g, w, keep);
        UniqueByCons(s[0], rest, field);
      }
    }
  }

  /** The tail of a list with unique keys has unique keys, none of them the
      head's. */
  lemma UniqueByTail<T>(s: seq<T>, field: T -> string)
    requires UniqueBy(s, field) && s != []
    ensures UniqueBy(s[1..], field)
    ensures forall x :: x in s[1..] ==> field(x) != field(s[0])
  {
    var t := s[1..];
    forall a, b | 0 <= a < b < |t|
      ensures field(t[a]) != field(t[b])
    {
      assert t[a] == s[a + 1] && t[b] == s[b + 1];
    }
    forall x | x in t
      ensures field(x) != field(s[0])
    {
      var k :| 0 <= k < |t| && t[k] == x;
      assert s[k + 1] == x;
    }
  }

  /** A key not among the unique keys of `rest`, put in front, keeps keys
      unique. */
  lemma UniqueByCons<T>(x: T, rest: seq<T>, field: T -> string)
    requires UniqueBy(rest, field) && forall y :: y in rest ==> field(y) != field(x)
    ensures UniqueBy([x] + rest, field)
  {
    var r := [x] + rest;
    forall a, b | 0 <= a < b < |r|
      ensures field(r[a]) != field(r[b])
    {
      assert r[b] == rest[b - 1];
      if a > 0 {
        assert r[a] == rest[a - 1];
      }
    }
  }

  /** Appending an element with a key not yet present keeps keys unique. */
  lemma UniqueByAppend<T>(s: seq<T>, x: T, field: T -> string)
    requires UniqueBy(s, field) && field(x) !in Map(s, field)
    ensures UniqueBy(s + [x], field)
  {
    var r := s + [x];
    forall i, j | 0 <= i < j < |r|
      ensures field(r[i]) != field(r[j])
    {
      if j == |s| {
        assert Map(s, field)[i] == field(s[i]);
      } else {
        assert r[i] == s[i] && r[j] == s[j];
      }
    }
  }

  /** `s.find(x => field(x) === v)`: the first element whose field is `v`. */
  function Find<T(==,!new)>(s: seq<T>, field: T -> string, v: string): (r: Option<T>)
    ensures r.None? <==> forall x :: x in s ==> field(x) != v
    ensures r.Some? ==> r.value in s && field(r.value) == v
    ensures r.Some? ==> exists i :: 0 <= i < |s| && s[i] == r.value && forall j :: 0 <= j < i ==> field(s[j]) != v
    decreases |s|
  {
    if s == [] then None
    else if field(s[0]) == v then Some(s[0])
    else
      assert forall x :: x in s ==> x == s[0] || x in s[1..];
      var r := Find(s[1..], field, v);
      assert r.Some? ==> exists i :: 0 < i < |s| && s[i] == r.value && forall j :: 0 <= j < i ==> field(s[j]) != v by {
        if r.Some? {
          var i :| 0 <= i < |s[1..]| && s[1..][i] == r.value && forall j :: 0 <= j < i ==> field(s[1..][j]) != v;
          assert forall j :: 0 < j < i + 1 ==> s[j] == s[1..][j - 1];
        }
      }
      r
  }

  /** Where `splice(index, 0, x)` puts `x` in a list of length `n`: an index
      beyond the end appends. */
  function SplicePosition(index: nat, n: nat): (k: nat)
    ensures k <= n && (k == index || (k == n && n < index))
  {
    if index < n then index else n
  }

  /** The list left by `s.splice(index, 0, x)`. */
  function Splice<T>(s: seq<T>, index: nat, x: T): (r: seq<T>)
    ensures |r| == |s| + 1
    ensures r[SplicePosition(index, |s|)] == x
    ensures r[..SplicePosition(index, |s|)] == s[..SplicePosition(index, |s|)]
    ensures r[SplicePosition(index, |s|) + 1..] == s[SplicePosition(index, |s|)..]
  {
    var k := SplicePosition(index, |s|);
    s[..k] + [x] + s[k..]
  }

  /** Every element of a splice other than the inserted one is the element
      of `s` at the same place before the insertion point and one place
      earlier after it. */
  lemma SpliceAround<T>(s: seq<T>, index: nat, x: T)
    ensures var k := SplicePosition(index, |s|);
      && (forall i :: 0 <= i < k ==> Splice(s, index, x)[i] == s[i])
      && (forall i :: k < i <= |s| ==> Splice(s, index, x)[i] == s[i - 1])
  {
    var k := SplicePosition(index, |s|);
    var r := Splice(s, index, x);
    forall i | k < i <= |s|
      ensures r[i] == s[i - 1]
    {
      assert r[i] == r[k + 1..][i - k - 1];
    }
    forall i | 0 <= i < k
      ensures r[i] == s[i]
    {
      assert r[i] == r[..k][i];
    }
  }

  lemma SpliceMultiset<T>(s: seq<T>, index: nat, x: T)
    ensures multiset(Splice(s, index, x)) == multiset(s) + multiset{x}
  {
    var k := SplicePosition(index, |s|);
    assert s == s[..k] + s[k..];
  }
}
