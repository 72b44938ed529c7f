/**
 * The stable sort the JVM uses for `sorted()` on a list of comparable
 * objects, for objects compared by an integer key.
 */
module Sorting {

  predicate SortedBy<T>(s: seq<T>, key: T -> int)
  {
    forall i, j :: 0 <= i < j < |s| ==> key(s[i]) <= key(s[j])
  }

  predicate Sorted(s: seq<int>)
  {
    forall i, j :: 0 <= i < j < |s| ==> s[i] <= s[j]
  }

  /** The keys of the elements, in order. */
  function Keys<T>(s: seq<T>, key: T -> int): (r: seq<int>)
    ensures |r| == |s| && forall i :: 0 <= i < |s| ==> r[i] == key(s[i])
  {
    seq(|s|, i requires 0 <= i < |s| => key(s[i]))
  }

  /** Inserts x after every element whose key is not greater, so equal keys keep their order. */
  function Insert<T>(x: T, s: seq<T>, key: T -> int): (r: seq<T>)
    ensures multiset(r) == multiset(s) + multiset{x}
    decreases |s|
  {
    if s == [] then [x]
    else if key(s[|s| - 1]) <= key(x) then s + [x]
    else
      assert s == s[..|s| - 1] + [s[|s| - 1]];
      Insert(x, s[..|s| - 1], key) + [s[|s| - 1]]
  }

  /** Stable insertion sort by key. */
  function SortBy<T>(s: seq<T>, key: T -> int): (r: seq<T>)
    decreases |s|
  {
    if s == [] then [] else Insert(s[|s| - 1], SortBy(s[..|s| - 1], key), key)
  }

  lemma {:induction false} InsertSorted<T>(x: T, s: seq<T>, key: T -> int)
    requires SortedBy(s, key)
    ensures SortedBy(Insert(x, s, key), key)
    decreases |s|
  {
    if s != [] && key(s[|s| - 1]) > key(x) {
      var init := s[..|s| - 1];
      var last := s[|s| - 1];
      InsertSorted(x, init, key);
      var r := Insert(x, init, key);
      forall k | 0 <= k < |r|
        ensures key(r[k]) <= key(last)
      {
        assert r[k] in multiset(init) + multiset{x};
        if r[k] != x {
          assert r[k] in init;
        }
      }
    }
  }

  /** The sort orders by key and is a permutation. */
  lemma {:induction false} SortBySortedPermutation<T>(s: seq<T>, key: T -> int)
    ensures SortedBy(SortBy(s, key), key)
    ensures multiset(SortBy(s, key)) == multiset(s)
    decreases |s|
  {
    if s != [] {
      SortBySortedPermutation(s[..|s| - 1], key);
      InsertSorted(s[|s| - 1], SortBy(s[..|s| - 1], key), key);
      assert s == s[..|s| - 1] + [s[|s| - 1]];
    }
  }

  /** The elements whose key is k, in their order in s. */
  function WithKey<T>(s: seq<T>, key: T -> int, k: int): (r: seq<T>)
    ensures |r| <= |s|
    decreases |s|
  {
    if s == [] then []
    else WithKey(s[..|s| - 1], key, k) + (if key(s[|s| - 1]) == k then [s[|s| - 1]] else [])
  }

  lemma WithKeySnoc<T>(s: seq<T>, x: T, key: T -> int, k: int)
    ensures WithKey(s + [x], key, k) == WithKey(s, key, k) + (if key(x) == k then [x] else [])
  {
    assert (s + [x])[..|s|] == s;
  }

  /**
   * Inserting x puts it after every element of its own key, so among the
   * elements of any one key it comes last and the others keep their order.
   */
  lemma {:induction false} InsertStable<T>(x: T, s: seq<T>, key: T -> int, k: int)
    ensures WithKey(Insert(x, s, key), key, k) == WithKey(s, key, k) + (if key(x) == k then [x] else [])
    decreases |s|
  {
    if s == [] {
      WithKeySnoc([], x, key, k);
    } else if key(s[|s| - 1]) <= key(x) {
      WithKeySnoc(s, x, key, k);
    } else {
      var init, last := s[..|s| - 1], s[|s| - 1];
      assert s == init + [last];
      InsertStable(x, init, key, k);
      WithKeySnoc(Insert(x, init, key), last, key, k);
      WithKeySnoc(init, last, key, k);
    }
  }

  /** The sort is stable: the elements of each key come out in their input order. */
  lemma {:induction false} SortByStable<T>(s: seq<T>, key: T -> int, k: int)
    ensures WithKey(SortBy(s, key), key, k) == WithKey(s, key, k)
    decreases |s|
  {
    if s != [] {
      var init, last := s[..|s| - 1], s[|s| - 1];
      SortByStable(init, key, k);
      InsertStable(last, SortBy(init, key), key, k);
    }
  }

  /** Taking out element j takes its key out of the keys. */
  lemma KeysRemove<T>(b: seq<T>, j: int, key: T -> int)
    requires 0 <= j < |b|
    ensures multiset(Keys(b, key)) == multiset(Keys(b[..j] + b[j + 1..], key)) + multiset{key(b[j])}
  {
    var rest := b[..j] + b[j + 1..];
    var k, r := Keys(b, key), Keys(rest, key);
    var front, back := r[..j], r[j..];
    forall i | 0 <= i < |k|
      ensures k[i] == (front + [key(b[j])] + back)[i]
    {
      if i > j {
        assert rest[i - 1] == b[i];
      }
    }
    assert k == front + [key(b[j])] + back;
    assert r == front + back;
  }

  /** Taking out element j takes it out of the multiset. */
  lemma MultisetRemove<T>(s: seq<T>, j: int)
    requires 0 <= j < |s|
    ensures multiset(s[..j] + s[j + 1..]) == multiset(s) - multiset{s[j]}
  {
    assert s == s[..j] + [s[j]] + s[j + 1..];
  }

  /** Permuting the elements permutes their keys. */
  lemma {:induction false} KeysPermutation<T>(a: seq<T>, b: seq<T>, key: T -> int)
    requires multiset(a) == multiset(b)
    ensures multiset(Keys(a, key)) == multiset(Keys(b, key))
    decreases |a|
  {
    if a == [] {
      assert |b| == |multiset(b)| == 0;
    } else {
      var n := |a| - 1;
      assert a[n] in multiset(b);
      var j :| 0 <= j < |b| && b[j] == a[n];
      MultisetRemove(a, n);
      MultisetRemove(b, j);
      assert a[..n] + a[n + 1..] == a[..n];
      KeysPermutation(a[..n], b[..j] + b[j + 1..], key);
      KeysRemove(a, n, key);
      KeysRemove(b, j, key);
    }
  }

  /** The head of a sorted sequence is its least element. */
  lemma SortedHeadLeast(s: seq<int>, v: int)
    requires Sorted(s) && v in multiset(s)
    ensures s[0] <= v
  {
    var i :| 0 <= i < |s| && s[i] == v;
  }

  lemma TailMultiset(a: seq<int>, b: seq<int>)
    requires a != [] && b != [] && a[0] == b[0] && multiset(a) == multiset(b)
    ensures multiset(a[1..]) == multiset(b[1..])
  {
    assert a == [a[0]] + a[1..];
    assert b == [b[0]] + b[1..];
    assert multiset(a) == multiset([a[0]]) + multiset(a[1..]);
    assert multiset(b) == multiset([a[0]]) + multiset(b[1..]);
    var m := multiset([a[0]]);
    assert forall x :: multiset(a[1..])[x] == multiset(a)[x] - m[x];
    assert forall x :: multiset(b[1..])[x] == multiset(b)[x] - m[x];
  }

  /** Two sorted integer sequences with the same elements are the same sequence. */
  lemma {:induction false} SortedUnique(a: seq<int>, b: seq<int>)
    requires Sorted(a) && Sorted(b) && multiset(a) == multiset(b)
    ensures a == b
    decreases |a|
  {
    if a == [] {
      assert |b| == |multiset(b)| == 0;
    } else {
      assert |b| == |multiset(b)| == |multiset(a)| == |a|;
      SortedHeadLeast(a, b[0]);
      SortedHeadLeast(b, a[0]);
      var a', b' := a[1..], b[1..];
      assert a == [a[0]] + a' && b == [b[0]] + b';
      TailMultiset(a, b);
      assert Sorted(a') && Sorted(b');
      SortedUnique(a', b');
    }
  }

  /** Sorting by key and then taking the keys does not depend on the order of the input. */
  lemma SortedKeysPermutationInvariant<T>(a: seq<T>, b: seq<T>, key: T -> int)
    requires multiset(a) == multiset(b)
    ensures Keys(SortBy(a, key), key) == Keys(SortBy(b, key), key)
  {
    SortBySortedPermutation(a, key);
    SortBySortedPermutation(b, key);
    KeysPermutation(SortBy(a, key), SortBy(b, key), key);
    SortedUnique(Keys(SortBy(a, key), key), Keys(SortBy(b, key), key));
  }
}
