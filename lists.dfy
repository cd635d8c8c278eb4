/** Sequence operations standing for java.util.List's bulk methods. */
module Lists {

  /** The elements satisfying `keep`, in order: List.retainAll / removeAll / removeIf. */
  function Filter<T>(s: seq<T>, keep: T -> bool): (r: seq<T>)
    ensures |r| <= |s|
    ensures forall k :: 0 <= k < |r| ==> r[k] in s && keep(r[k])
    ensures forall k :: 0 <= k < |s| && keep(s[k]) ==> s[k] in r
  {
    if s == [] then []
    else Filter(s[..|s| - 1], keep) + (if keep(s[|s| - 1]) then [s[|s| - 1]] else [])
  }

  /** Nothing is dropped exactly when every element is kept. */
  lemma {:induction false} FilterKeepsAll<T>(s: seq<T>, keep: T -> bool)
    ensures Filter(s, keep) == s <==> forall k :: 0 <= k < |s| ==> keep(s[k])
    ensures |Filter(s, keep)| == |s| <==> Filter(s, keep) == s
  {
    if s != [] {
      var init := s[..|s| - 1];
      FilterKeepsAll(init, keep);
      FilterLength(init, keep);
      if forall k :: 0 <= k < |s| ==> keep(s[k]) {
        assert forall k :: 0 <= k < |init| ==> keep(init[k]);
        assert Filter(s, keep) == init + [s[|s| - 1]];
        assert init + [s[|s| - 1]] == s;
      }
    }
  }

  lemma {:induction false} FilterLength<T>(s: seq<T>, keep: T -> bool)
    ensures |Filter(s, keep)| <= |s|
    ensures |Filter(s, keep)| == |s| ==> forall k :: 0 <= k < |s| ==> keep(s[k])
  {
    if s != [] {
      var init := s[..|s| - 1];
      FilterLength(init, keep);
      if |Filter(s, keep)| == |s| {
        assert keep(s[|s| - 1]);
        assert |Filter(init, keep)| == |init|;
        forall k | 0 <= k < |s| ensures keep(s[k]) {
          if k < |init| {
            assert init[k] == s[k];
          }
        }
      }
    }
  }

  /**
   * Mapping then filtering on the image is filtering by the composed test
   * (`keepImage` agrees with `keep` after `f` on every element), then mapping.
   */
  lemma {:induction false} FilterMap<T, U>(s: seq<T>, f: T -> U, keep: U -> bool, keepImage: T -> bool)
    requires forall k :: 0 <= k < |s| ==> keepImage(s[k]) == keep(f(s[k]))
    ensures Filter(Map(s, f), keep) == Map(Filter(s, keepImage), f)
  {
    if s != [] {
      var init := s[..|s| - 1];
      FilterMap(init, f, keep, keepImage);
      assert Map(s, f)[..|s| - 1] == Map(init, f);
      MapAppend(Filter(init, keepImage), if keepImage(s[|s| - 1]) then [s[|s| - 1]] else [], f);
    }
  }

  /** The image of every element, in order. */
  function Map<T, U>(s: seq<T>, f: T -> U): (r: seq<U>)
    ensures |r| == |s| && forall k :: 0 <= k < |s| ==> r[k] == f(s[k])
  {
    seq(|s|, k requires 0 <= k < |s| => f(s[k]))
  }

  lemma MapAppend<T, U>(a: seq<T>, b: seq<T>, f: T -> U)
    ensures Map(a + b, f) == Map(a, f) + Map(b, f)
  {
  }

  /** List.remove(int): the element at `i` taken out, the rest in order. */
  function RemoveAt<T>(s: seq<T>, i: nat): (r: seq<T>)
    requires i < |s|
    ensures |r| == |s| - 1
    ensures forall k :: 0 <= k < i ==> r[k] == s[k]
    ensures forall k :: i <= k < |r| ==> r[k] == s[k + 1]
  {
    s[..i] + s[i + 1..]
  }

  /** List.add(int, E): `x` placed at `i`, later elements shifted right. */
  function InsertAt<T>(s: seq<T>, i: nat, x: T): (r: seq<T>)
    requires i <= |s|
    ensures |r| == |s| + 1 && r[i] == x
    ensures forall k :: 0 <= k < i ==> r[k] == s[k]
    ensures forall k :: i < k < |r| ==> r[k] == s[k - 1]
  {
    s[..i] + [x] + s[i..]
  }

  /** Removing what was inserted gives the list back. */
  lemma RemoveInserted<T>(s: seq<T>, i: nat, x: T)
    requires i <= |s|
    ensures RemoveAt(InsertAt(s, i, x), i) == s
  {
    var r := RemoveAt(InsertAt(s, i, x), i);
    assert forall k :: 0 <= k < |s| ==> r[k] == s[k];
  }

  /** Taking a slot out removes one occurrence of its element and nothing else. */
  lemma RemoveAtMultiset<T>(s: seq<T>, i: nat)
    requires i < |s|
    ensures multiset(RemoveAt(s, i)) == multiset(s) - multiset{s[i]}
  {
    assert s == s[..i] + [s[i]] + s[i + 1..];
  }

  /** Removal and insertion commute with mapping. */
  lemma MapRemoveAt<T, U>(s: seq<T>, i: nat, f: T -> U)
    requires i < |s|
    ensures Map(RemoveAt(s, i), f) == RemoveAt(Map(s, f), i)
  {
  }

  lemma MapInsertAt<T, U>(s: seq<T>, i: nat, x: T, f: T -> U)
    requires i <= |s|
    ensures Map(InsertAt(s, i, x), f) == InsertAt(Map(s, f), i, f(x))
  {
  }

  /** Mapping two arrangements of the same elements gives arrangements of the same images. */
  lemma {:induction false} MapPermutation<T, U>(a: seq<T>, b: seq<T>, f: T -> U)
    requires multiset(a) == multiset(b)
    ensures multiset(Map(a, f)) == multiset(Map(b, f))
    decreases |a|
  {
    if a != [] {
      var init, x := a[..|a| - 1], a[|a| - 1];
      assert a == init + [x];
      assert x in multiset(b);
      var j :| 0 <= j < |b| && b[j] == x;
      var rest := RemoveAt(b, j);
      assert b == b[..j] + [x] + b[j + 1..];
      assert rest == b[..j] + b[j + 1..];
      assert multiset(b) == multiset(b[..j]) + multiset{x} + multiset(b[j + 1..]);
      assert multiset(rest) == multiset(b[..j]) + multiset(b[j + 1..]);
      assert multiset(a) == multiset(init) + multiset{x};
      assert multiset(init) == multiset(a) - multiset{x};
      assert multiset(rest) == multiset(b) - multiset{x};
      MapPermutation(init, rest, f);
      MapAppend(init, [x], f);
      MapAppend(b[..j] + [x], b[j + 1..], f);
      MapAppend(b[..j], [x], f);
      MapAppend(b[..j], b[j + 1..], f);
    }
  }

  /** No element occurs twice. */
  predicate Distinct<T(==)>(s: seq<T>)
  {
    forall i, j :: 0 <= i < j < |s| ==> s[i] != s[j]
  }

  /** In a sequence without repeats every element occurs at most once. */
  lemma {:induction false} DistinctCount<T>(s: seq<T>, x: T)
    requires Distinct(s)
    ensures multiset(s)[x] <= 1
    decreases |s|
  {
    if s != [] {
      var init, last := s[..|s| - 1], s[|s| - 1];
      assert s == init + [last];
      DistinctCount(init, x);
      if last == x {
        assert x !in init;
      }
    }
  }

  /** A rearrangement of a sequence without repeats has none either. */
  lemma DistinctPermutation<T>(a: seq<T>, b: seq<T>)
    requires multiset(a) == multiset(b) && Distinct(a)
    ensures Distinct(b)
  {
    forall i, j | 0 <= i < j < |b| ensures b[i] != b[j] {
      if b[i] == b[j] {
        var x := b[i];
        assert b == b[..j] + b[j..];
        assert x in b[..j] && x == b[j..][0];
        assert multiset(b)[x] == multiset(b[..j])[x] + multiset(b[j..])[x];
        DistinctCount(a, x);
        assert false;
      }
    }
  }

  /** The keys of a LinkedHashMap after putting `s` in order: first occurrences, in order. */
  function FirstOccurrences<T(==)>(s: seq<T>): (r: seq<T>)
    ensures |r| <= |s|
  {
    if s == [] then []
    else
      var init, last := FirstOccurrences(s[..|s| - 1]), s[|s| - 1];
      if last in init then init else init + [last]
  }

  /** Each key is put once, and the keys are exactly the elements put. */
  lemma {:induction false} FirstOccurrencesKeys<T>(s: seq<T>)
    ensures Distinct(FirstOccurrences(s))
    ensures forall k :: 0 <= k < |FirstOccurrences(s)| ==> FirstOccurrences(s)[k] in s
    ensures forall k :: 0 <= k < |s| ==> s[k] in FirstOccurrences(s)
    decreases |s|
  {
    if s != [] {
      var init, last := s[..|s| - 1], s[|s| - 1];
      var keys := FirstOccurrences(init);
      FirstOccurrencesKeys(init);
      forall k | 0 <= k < |s| - 1 ensures s[k] in keys {
        assert s[k] == init[k];
      }
      if last !in keys {
        var r := keys + [last];
        assert FirstOccurrences(s) == r;
        forall k | 0 <= k < |keys| ensures r[k] in s {
          assert r[k] == keys[k] && keys[k] in init;
        }
        forall i, j | 0 <= i < j < |r| ensures r[i] != r[j] {
          assert r[i] == keys[i];
        }
      }
    }
  }

  /** Without repeats every put adds a new key, so the key order is the sequence itself. */
  lemma {:induction false} FirstOccurrencesOfDistinct<T>(s: seq<T>)
    requires Distinct(s)
    ensures FirstOccurrences(s) == s
    decreases |s|
  {
    if s != [] {
      var init := s[..|s| - 1];
      FirstOccurrencesOfDistinct(init);
      assert s[|s| - 1] !in init;
      assert init + [s[|s| - 1]] == s;
    }
  }

  /** Putting a permutation of `t` leaves each element of `t` as a key exactly once. */
  lemma FirstOccurrencesOfPermutation<T>(s: seq<T>, t: seq<T>)
    requires multiset(s) == multiset(t)
    ensures Distinct(FirstOccurrences(s))
    ensures forall k :: 0 <= k < |FirstOccurrences(s)| ==> FirstOccurrences(s)[k] in t
    ensures forall k :: 0 <= k < |t| ==> t[k] in FirstOccurrences(s)
  {
    FirstOccurrencesKeys(s);
    forall k | 0 <= k < |FirstOccurrences(s)| ensures FirstOccurrences(s)[k] in t {
      assert FirstOccurrences(s)[k] in multiset(s);
    }
    forall k | 0 <= k < |t| ensures t[k] in FirstOccurrences(s) {
      assert t[k] in multiset(s);
    }
  }
}
