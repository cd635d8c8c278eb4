/**
 * List.sort with a key comparator: a stable sort, modelled as insertion sort
 * by a real-valued key. A descending sort (a reversed comparator) is the
 * ascending sort by the negated key.
 */
module Sorting {

  predicate SortedBy<T>(s: seq<T>, key: T -> real)
  {
    forall i, j :: 0 <= i < j < |s| ==> key(s[i]) <= key(s[j])
  }

  /** The elements of `s` whose key is `k`, in their order in `s`. */
  function WithKey<T>(s: seq<T>, key: T -> real, k: real): seq<T>
  {
    if s == [] then []
    else WithKey(s[..|s| - 1], key, k) + (if key(s[|s| - 1]) == k then [s[|s| - 1]] else [])
  }

  /** `x` placed after every element of `s` whose key is at most its own. */
  function Insert<T>(x: T, s: seq<T>, key: T -> real): (r: seq<T>)
    ensures |r| == |s| + 1
  {
    if s == [] then [x]
    else if key(x) < key(s[|s| - 1]) then Insert(x, s[..|s| - 1], key) + [s[|s| - 1]]
    else s + [x]
  }

  function SortBy<T>(s: seq<T>, key: T -> real): (r: seq<T>)
    ensures |r| == |s|
  {
    if s == [] then [] else Insert(s[|s| - 1], SortBy(s[..|s| - 1], key), key)
  }

  lemma {:induction false} InsertMultiset<T>(x: T, s: seq<T>, key: T -> real)
    ensures multiset(Insert(x, s, key)) == multiset(s) + multiset{x}
  {
    if s != [] && key(x) < key(s[|s| - 1]) {
      var init := s[..|s| - 1];
      assert s == init + [s[|s| - 1]];
      InsertMultiset(x, init, key);
    }
  }

  lemma {:induction false} InsertKeys<T>(x: T, s: seq<T>, key: T -> real)
    requires SortedBy(s, key)
    ensures SortedBy(Insert(x, s, key), key)
  {
    if s != [] && key(x) < key(s[|s| - 1]) {
      var init, last := s[..|s| - 1], s[|s| - 1];
      InsertKeys(x, init, key);
      InsertMultiset(x, init, key);
      var r := Insert(x, init, key);
      forall i | 0 <= i < |r| ensures key(r[i]) <= key(last) {
        assert r[i] in multiset(r);
        if r[i] != x {
          assert r[i] in multiset(init);
          var j :| 0 <= j < |init| && init[j] == r[i];
          assert s[j] == r[i];
        }
      }
      assert Insert(x, s, key) == r + [last];
    }
  }

  lemma {:induction false} WithKeyConcat<T>(a: seq<T>, b: seq<T>, key: T -> real, k: real)
    ensures WithKey(a + b, key, k) == WithKey(a, key, k) + WithKey(b, key, k)
    decreases |b|
  {
    if b == [] {
      assert a + b == a;
    } else {
      var init := b[..|b| - 1];
      assert (a + b)[..|a + b| - 1] == a + init;
      WithKeyConcat(a, init, key, k);
    }
  }

  lemma WithKeySingle<T>(x: T, key: T -> real, k: real)
    ensures WithKey([x], key, k) == if key(x) == k then [x] else []
  {
    assert [x][..0] == [];
  }

  lemma SortedInit<T>(s: seq<T>, key: T -> real)
    requires s != [] && SortedBy(s, key)
    ensures SortedBy(s[..|s| - 1], key)
  {
  }

  lemma {:induction false} InsertWithKey<T>(x: T, s: seq<T>, key: T -> real, k: real)
    requires SortedBy(s, key)
    ensures WithKey(Insert(x, s, key), key, k)
      == WithKey(s, key, k) + (if key(x) == k then [x] else [])
  {
    if s == [] {
      WithKeySingle(x, key, k);
      assert WithKey([], key, k) == [];
    } else if key(x) < key(s[|s| - 1]) {
      SortedInit(s, key);
      InsertWithKey(x, s[..|s| - 1], key, k);
      InsertBeforeLast(x, s, key, k);
    } else {
      assert Insert(x, s, key) == s + [x];
      WithKeyConcat(s, [x], key, k);
      WithKeySingle(x, key, k);
    }
  }

  /** The step of InsertWithKey where `x` goes before the last element, whose key is larger. */
  lemma InsertBeforeLast<T>(x: T, s: seq<T>, key: T -> real, k: real)
    requires s != [] && key(x) < key(s[|s| - 1])
    requires WithKey(Insert(x, s[..|s| - 1], key), key, k)
      == WithKey(s[..|s| - 1], key, k) + (if key(x) == k then [x] else [])
    ensures WithKey(Insert(x, s, key), key, k)
      == WithKey(s, key, k) + (if key(x) == k then [x] else [])
  {
    var init, last := s[..|s| - 1], s[|s| - 1];
    assert Insert(x, s, key) == Insert(x, init, key) + [last];
    WithKeyConcat(Insert(x, init, key), [last], key, k);
    WithKeyConcat(init, [last], key, k);
    assert init + [last] == s;
    WithKeySingle(last, key, k);
  }

  /** The sort orders by key, is a permutation, and keeps equal-key elements in their order. */
  lemma {:induction false} SortByCorrect<T>(s: seq<T>, key: T -> real)
    ensures SortedBy(SortBy(s, key), key)
    ensures multiset(SortBy(s, key)) == multiset(s)
    ensures forall k :: WithKey(SortBy(s, key), key, k) == WithKey(s, key, k)
  {
    if s != [] {
      var init, last := s[..|s| - 1], s[|s| - 1];
      SortByCorrect(init, key);
      InsertKeys(last, SortBy(init, key), key);
      InsertMultiset(last, SortBy(init, key), key);
      assert s == init + [last];
      forall k ensures WithKey(SortBy(s, key), key, k) == WithKey(s, key, k) {
        InsertWithKey(last, SortBy(init, key), key, k);
      }
    }
  }

  /** A sequence already in key order is left as it is. */
  lemma {:induction false} SortBySorted<T>(s: seq<T>, key: T -> real)
    requires SortedBy(s, key)
    ensures SortBy(s, key) == s
  {
    if s != [] {
      var init := s[..|s| - 1];
      SortBySorted(init, key);
      assert init + [s[|s| - 1]] == s;
    }
  }
}
