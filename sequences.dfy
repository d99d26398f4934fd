/**
 Generic sequence operations standing for the table operations of pandas
 that the dashboard uses: a boolean-mask row filter and `sort_values`.
 */
module Sequences {

  /** `s` is ordered non-decreasingly by `key`. */
  predicate SortedBy<T>(s: seq<T>, key: T -> real) {
    forall i, j :: 0 <= i < j < |s| ==> key(s[i]) <= key(s[j])
  }

  /** Inserts `x` into the sorted `s` in front of the first element whose key is not smaller. */
  function InsertBy<T>(x: T, s: seq<T>, key: T -> real): (r: seq<T>)
    requires SortedBy(s, key)
    ensures SortedBy(r, key)
    ensures multiset(r) == multiset(s) + multiset{x}
  {
    if s == [] then [x]
    else if key(x) <= key(s[0]) then [x] + s
    else
      var rest := InsertBy(x, s[1..], key);
      assert s == [s[0]] + s[1..];
      SortedCons(s[0], rest, key, s[1..], x);
      [s[0]] + rest
  }

  /**
   Putting `y` in front of a sorted `rest` whose elements come from `tail`
   or are `x` keeps it sorted when `y` is no greater than all of them.
   */
  lemma SortedCons<T>(y: T, rest: seq<T>, key: T -> real, tail: seq<T>, x: T)
    requires SortedBy(rest, key) && SortedBy([y] + tail, key) && key(y) <= key(x)
    requires multiset(rest) == multiset(tail) + multiset{x}
    ensures SortedBy([y] + rest, key)
  {
    forall k | 0 <= k < |rest| ensures key(y) <= key(rest[k]) {
      assert rest[k] in multiset(rest);
      if rest[k] != x {
        assert rest[k] in multiset(tail);
        var m :| 0 <= m < |tail| && tail[m] == rest[k];
        assert ([y] + tail)[0] == y && ([y] + tail)[m + 1] == rest[k];
      }
    }
    var r := [y] + rest;
    forall i, j | 0 <= i < j < |r| ensures key(r[i]) <= key(r[j]) {
      if 0 < i {
        assert r[i] == rest[i - 1] && r[j] == rest[j - 1];
      }
    }
  }

  /** Sorts `s` by `key`: an insertion sort standing for `sort_values`. */
  function SortBy<T>(s: seq<T>, key: T -> real): (r: seq<T>)
    ensures SortedBy(r, key)
    ensures multiset(r) == multiset(s)
  {
    if s == [] then []
    else
      assert s == [s[0]] + s[1..];
      InsertBy(s[0], SortBy(s[1..], key), key)
  }

  /** Keeps the elements of `s` that satisfy `p`, in their order (a boolean-mask filter). */
  function Filter<T>(s: seq<T>, p: T -> bool): (r: seq<T>)
    ensures |r| <= |s|
  {
    if s == [] then []
    else (if p(s[0]) then [s[0]] else []) + Filter(s[1..], p)
  }

  /**
   A filter keeps every element that passes, as often as it occurs, and
   nothing else.
   */
  lemma {:induction false} FilterCounts<T(!new)>(s: seq<T>, p: T -> bool)
    ensures forall x :: multiset(Filter(s, p))[x] == if p(x) then multiset(s)[x] else 0
  {
    if s != [] {
      assert s == [s[0]] + s[1..];
      FilterCounts(s[1..], p);
    }
  }

  /** `a` can be obtained from `b` by deleting elements: `a` keeps `b`'s order. */
  predicate IsSubsequence<T(==)>(a: seq<T>, b: seq<T>)
    decreases |b|
  {
    if a == [] then true
    else if b == [] then false
    else (a[0] == b[0] && IsSubsequence(a[1..], b[1..])) || IsSubsequence(a, b[1..])
  }

  /** Sorting an already sorted sequence leaves it as it is. */
  lemma {:induction false} SortBySorted<T>(s: seq<T>, key: T -> real)
    requires SortedBy(s, key)
    ensures SortBy(s, key) == s
  {
    if s != [] {
      SortBySorted(s[1..], key);
    }
  }

  /** A filter keeps the order of the elements it keeps. */
  lemma {:induction false} FilterIsSubsequence<T>(s: seq<T>, p: T -> bool)
    ensures IsSubsequence(Filter(s, p), s)
  {
    if s != [] {
      FilterIsSubsequence(s[1..], p);
      var rest := Filter(s[1..], p);
      if p(s[0]) {
        assert Filter(s, p) == [s[0]] + rest;
        assert Filter(s, p)[1..] == rest;
      } else {
        assert Filter(s, p) == rest;
      }
    }
  }

  /** A filter of a sorted sequence is sorted. */
  lemma {:induction false} FilterKeepsSorted<T(!new)>(s: seq<T>, p: T -> bool, key: T -> real)
    requires SortedBy(s, key)
    ensures SortedBy(Filter(s, p), key)
  {
    if s != [] {
      FilterKeepsSorted(s[1..], p, key);
      FilterCounts(s[1..], p);
      var rest := Filter(s[1..], p);
      forall k | 0 <= k < |rest| ensures key(s[0]) <= key(rest[k]) {
        assert rest[k] in multiset(rest);
        assert rest[k] in multiset(s[1..]);
      }
    }
  }

  /** A filter that every element passes is the identity. */
  lemma {:induction false} FilterAll<T>(s: seq<T>, p: T -> bool)
    requires forall k :: 0 <= k < |s| ==> p(s[k])
    ensures Filter(s, p) == s
  {
    if s != [] {
      FilterAll(s[1..], p);
    }
  }

  /** Deleting one element of a sorted sequence leaves it sorted. */
  lemma SortedWithout<T>(s: seq<T>, k: nat, key: T -> real)
    requires k < |s| && SortedBy(s, key)
    ensures SortedBy(s[..k] + s[k + 1..], key)
  {
    var t := s[..k] + s[k + 1..];
    forall i, j | 0 <= i < j < |t| ensures key(t[i]) <= key(t[j]) {
      var i' := if i < k then i else i + 1;
      var j' := if j < k then j else j + 1;
      assert t[i] == s[i'] && t[j] == s[j'];
    }
  }

  /** Deleting the element at `k` takes exactly one copy of it out of the multiset. */
  lemma MultisetWithout<T>(s: seq<T>, k: nat)
    requires k < |s|
    ensures multiset(s[..k] + s[k + 1..]) == multiset(s) - multiset{s[k]}
  {
    assert s == s[..k] + [s[k]] + s[k + 1..];
  }

  /** In a sorted sequence, everything up to an element with the first key shares that key. */
  lemma SortedRunFromFront<T>(s: seq<T>, k: nat, key: T -> real)
    requires k < |s| && SortedBy(s, key) && key(s[k]) == key(s[0])
    ensures forall i :: 0 <= i <= k ==> key(s[i]) == key(s[0])
  {
  }

  /**
   The first element of `a` sits at some position `k` of `b`, and in two
   sorted orderings of the same elements the first keys agree.
   */
  lemma FrontKeysAgree<T>(a: seq<T>, b: seq<T>, key: T -> real) returns (k: nat)
    requires SortedBy(a, key) && SortedBy(b, key)
    requires multiset(a) == multiset(b) && a != []
    ensures k < |b| && b[k] == a[0]
    ensures forall i :: 0 <= i <= k ==> key(b[i]) == key(a[0])
  {
    assert a[0] in multiset(b);
    k :| 0 <= k < |b| && b[k] == a[0];
    assert b[0] in multiset(a);
    var m :| 0 <= m < |a| && a[m] == b[0];
    assert key(a[0]) <= key(a[m]);
    SortedRunFromFront(b, k, key);
  }

  /** Agreement of `a[1..]` with `b` less its element `k` extends to `a` and `b`. */
  lemma ShiftedKeysAgree<T>(a: seq<T>, b: seq<T>, k: nat, key: T -> real)
    requires 0 < |a| == |b| && k < |b| && key(a[0]) == key(b[0])
    requires forall i :: 0 <= i <= k ==> key(b[i]) == key(a[0])
    requires forall i :: 0 <= i < |a| - 1 ==> key(a[1..][i]) == key((b[..k] + b[k + 1..])[i])
    ensures forall i :: 0 <= i < |a| ==> key(a[i]) == key(b[i])
  {
    var b' := b[..k] + b[k + 1..];
    forall i | 0 < i < |a| ensures key(a[i]) == key(b[i]) {
      assert a[1..][i - 1] == a[i];
      if i <= k {
        assert b'[i - 1] == b[i - 1];
      } else {
        assert b'[i - 1] == b[i];
      }
    }
  }

  /**
   Takes the first element of `a` out of both sequences: what remains of
   each is sorted and holds the same elements.
   */
  lemma RemoveFront<T>(a: seq<T>, b: seq<T>, key: T -> real) returns (k: nat, b': seq<T>)
    requires SortedBy(a, key) && SortedBy(b, key)
    requires multiset(a) == multiset(b) && a != []
    ensures 0 < |a| == |b| && k < |b| && b' == b[..k] + b[k + 1..]
    ensures forall i :: 0 <= i <= k ==> key(b[i]) == key(a[0])
    ensures SortedBy(a[1..], key) && SortedBy(b', key)
    ensures multiset(a[1..]) == multiset(b')
  {
    assert |a| == |multiset(a)| == |multiset(b)| == |b|;
    k := FrontKeysAgree(a, b, key);
    b' := b[..k] + b[k + 1..];
    MultisetWithout(b, k);
    assert a == [a[0]] + a[1..];
    SortedWithout(b, k, key);
  }

  /**
   Two sorted orderings of the same elements agree on the key at every
   position: however a sort breaks ties, the sequence of keys is determined.
   */
  lemma {:induction false} SortedPermutationsAgreeOnKeys<T>(a: seq<T>, b: seq<T>, key: T -> real)
    requires SortedBy(a, key) && SortedBy(b, key)
    requires multiset(a) == multiset(b)
    ensures |a| == |b|
    ensures forall i :: 0 <= i < |a| ==> key(a[i]) == key(b[i])
  {
    if a != [] {
      var k, b' := RemoveFront(a, b, key);
      SortedPermutationsAgreeOnKeys(a[1..], b', key);
      ShiftedKeysAgree(a, b, k, key);
    } else {
      assert |b| == |multiset(b)| == 0;
    }
  }

  /** A column computed row by row: `f` applied to each element, in order. */
  function Map<T, U>(s: seq<T>, f: T -> U): seq<U> {
    seq(|s|, i requires 0 <= i < |s| => f(s[i]))
  }

  /**
   Reordering the rows reorders the computed column the same way: two
   permutations of each other map to permutations of each other.
   */
  lemma {:induction false} MapPermutation<T, U>(a: seq<T>, b: seq<T>, f: T -> U)
    requires multiset(a) == multiset(b)
    ensures multiset(Map(a, f)) == multiset(Map(b, f))
    decreases |a|
  {
    if a == [] {
      assert |b| == |multiset(b)| == 0;
    } else {
      assert a[0] in multiset(b);
      var k :| 0 <= k < |b| && b[k] == a[0];
      var b' := b[..k] + b[k + 1..];
      MultisetWithout(b, k);
      assert a == [a[0]] + a[1..];
      MapPermutation(a[1..], b', f);
      assert Map(a, f) == [f(a[0])] + Map(a[1..], f);
      assert Map(b, f) == Map(b[..k], f) + [f(a[0])] + Map(b[k + 1..], f);
      assert Map(b', f) == Map(b[..k], f) + Map(b[k + 1..], f);
    }
  }

  /**
   Filtering and then computing a column depends only on what the predicate
   and the column function see of each element.
   */
  lemma {:induction false} FilterMapAgree<T, U>(a: seq<T>, b: seq<T>, p: T -> bool, f: T -> U)
    requires |a| == |b|
    requires forall i :: 0 <= i < |a| ==> p(a[i]) == p(b[i]) && (p(a[i]) ==> f(a[i]) == f(b[i]))
    ensures Map(Filter(a, p), f) == Map(Filter(b, p), f)
    decreases |a|
  {
    if a != [] {
      FilterMapAgree(a[1..], b[1..], p, f);
      var ha := if p(a[0]) then [a[0]] else [];
      var hb := if p(b[0]) then [b[0]] else [];
      assert Map(Filter(a, p), f) == Map(ha, f) + Map(Filter(a[1..], p), f);
      assert Map(Filter(b, p), f) == Map(hb, f) + Map(Filter(b[1..], p), f);
      assert Map(ha, f) == Map(hb, f);
    }
  }
}
