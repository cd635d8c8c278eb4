/**
 * The chart combinations of a resonance matrix: every non-empty subset of
 * its charts, read off the binary digits of a counter, in chart order.
 */
module Combinations {
  import opened Sorting

  function Pow2(k: nat): (r: nat)
    ensures r >= 1
  {
    if k == 0 then 1 else 2 * Pow2(k - 1)
  }

  /** The number of binary digits of `c`. */
  function Width(c: nat): nat
  {
    if c == 0 then 0 else 1 + Width(c / 2)
  }

  lemma {:induction false} WidthBound(c: nat, m: nat)
    requires c < Pow2(m)
    ensures Width(c) <= m
  {
    if c > 0 {
      assert m > 0;
      WidthBound(c / 2, m - 1);
    }
  }

  /**
   * The positions of the set bits of `c`, counted from `n` upwards: the
   * chart positions the cypher loop of heavenCombinations visits with an odd
   * cypher. They ascend strictly and lie in [n, n + Width(c)).
   */
  function BitIndices(c: nat, n: nat): (r: seq<nat>)
    ensures forall k :: 0 <= k < |r| ==> n <= r[k] < n + Width(c)
    ensures forall a, b :: 0 <= a < b < |r| ==> r[a] < r[b]
    ensures c > 0 ==> r != []
    decreases c
  {
    if c == 0 then []
    else if c % 2 == 1 then [n] + BitIndices(c / 2, n + 1)
    else BitIndices(c / 2, n + 1)
  }

  /** Different counters have different set bits. */
  lemma {:induction false} BitIndicesInjective(c: nat, d: nat, n: nat)
    requires BitIndices(c, n) == BitIndices(d, n)
    ensures c == d
    decreases c + d
  {
    if c == 0 || d == 0 {
    } else if c % 2 != d % 2 {
      HeadBit(c, n);
      HeadBit(d, n);
    } else {
      if c % 2 == 1 {
        assert BitIndices(c / 2, n + 1) == BitIndices(c, n)[1..] == BitIndices(d, n)[1..] == BitIndices(d / 2, n + 1);
      }
      BitIndicesInjective(c / 2, d / 2, n + 1);
    }
  }

  /** The lowest position is `n` exactly when the lowest bit is set. */
  lemma HeadBit(c: nat, n: nat)
    requires c > 0
    ensures BitIndices(c, n)[0] == n <==> c % 2 == 1
  {
    if c % 2 == 0 {
      assert BitIndices(c, n) == BitIndices(c / 2, n + 1);
    }
  }

  /** The elements of `hs` at the positions `idx`, in that order. */
  function Pick<T>(hs: seq<T>, idx: seq<nat>): (r: seq<T>)
    requires forall k :: 0 <= k < |idx| ==> idx[k] < |hs|
    ensures |r| == |idx| && forall k :: 0 <= k < |idx| ==> r[k] == hs[idx[k]]
  {
    if idx == [] then [] else [hs[idx[0]]] + Pick(hs, idx[1..])
  }

  /** Picking distinct elements at different position lists gives different lists. */
  lemma PickInjective<T>(hs: seq<T>, a: seq<nat>, b: seq<nat>)
    requires forall k :: 0 <= k < |a| ==> a[k] < |hs|
    requires forall k :: 0 <= k < |b| ==> b[k] < |hs|
    requires forall k, l :: 0 <= k < l < |hs| ==> hs[k] != hs[l]
    requires Pick(hs, a) == Pick(hs, b)
    ensures a == b
  {
    forall k | 0 <= k < |a| ensures a[k] == b[k] {
      assert hs[a[k]] == hs[b[k]];
    }
  }

  /** In aspects mode at most two charts are kept: the first two set bits. */
  function Truncate<T>(s: seq<T>, forAspects: bool): (r: seq<T>)
    ensures forAspects ==> |r| <= 2
    ensures |s| <= 2 || !forAspects ==> r == s
  {
    if forAspects && |s| > 2 then s[..2] else s
  }

  /** The combination for counter `i`: the charts at its set bits, truncated in aspects mode. */
  function Combination<T>(hs: seq<T>, i: nat, forAspects: bool): (r: seq<T>)
    requires i < Pow2(|hs|)
  {
    WidthBound(i, |hs|);
    Truncate(Pick(hs, BitIndices(i, 0)), forAspects)
  }

  /** The combinations for counters 1 .. 2^K - 1, in counter order, before sorting. */
  function Unsorted<T>(hs: seq<T>, forAspects: bool): (r: seq<seq<T>>)
    ensures |r| == Pow2(|hs|) - 1
  {
    seq(Pow2(|hs|) - 1, k requires 0 <= k < Pow2(|hs|) - 1 => Combination(hs, k + 1, forAspects))
  }

  /** The counter loop's step: counter `i` appends its combination. */
  lemma UnsortedStep<T>(hs: seq<T>, forAspects: bool, i: nat)
    requires 1 <= i < Pow2(|hs|)
    ensures Unsorted(hs, forAspects)[..i] == Unsorted(hs, forAspects)[..i - 1] + [Combination(hs, i, forAspects)]
  {
    var all := Unsorted(hs, forAspects);
    assert all[i - 1] == Combination(hs, i, forAspects);
    assert all[..i] == all[..i - 1] + [all[i - 1]];
  }

  function Size<T>(s: seq<T>): real
  {
    |s| as real
  }

  /** Positions in strictly ascending order, below `bound`. */
  predicate AscendingBelow(idx: seq<nat>, bound: nat)
  {
    (forall a, b :: 0 <= a < b < |idx| ==> idx[a] < idx[b]) && forall k :: 0 <= k < |idx| ==> idx[k] < bound
  }

  /**
   * What heavenCombinations returns: 2^K - 1 combinations, stably sorted by
   * size, a permutation of the counter-order list.
   */
  lemma CombinationsSorted<T>(hs: seq<T>, forAspects: bool)
    ensures |SortBy(Unsorted(hs, forAspects), Size)| == Pow2(|hs|) - 1
    ensures SortedBy(SortBy(Unsorted(hs, forAspects), Size), Size)
    ensures multiset(SortBy(Unsorted(hs, forAspects), Size)) == multiset(Unsorted(hs, forAspects))
    ensures forall k :: WithKey(SortBy(Unsorted(hs, forAspects), Size), Size, k) == WithKey(Unsorted(hs, forAspects), Size, k)
  {
    SortByCorrect(Unsorted(hs, forAspects), Size);
  }

  /** The sorted combinations are a permutation of the counter-order list. */
  lemma CombinationsPermuted<T>(hs: seq<T>, forAspects: bool)
    ensures multiset(SortBy(Unsorted(hs, forAspects), Size)) == multiset(Unsorted(hs, forAspects))
  {
    SortByCorrect(Unsorted(hs, forAspects), Size);
  }

  /**
   * Each combination is non-empty and lists charts at ascending positions,
   * i.e. in chart order; in aspects mode it has at most two charts.
   */
  lemma CombinationShape<T>(hs: seq<T>, i: nat, forAspects: bool)
    requires 1 <= i < Pow2(|hs|)
    ensures Combination(hs, i, forAspects) != []
    ensures forAspects ==> |Combination(hs, i, forAspects)| <= 2
    ensures exists idx :: AscendingBelow(idx, |hs|) && Combination(hs, i, forAspects) == Pick(hs, idx)
  {
    WidthBound(i, |hs|);
    var all := BitIndices(i, 0);
    var idx := if forAspects && |all| > 2 then all[..2] else all;
    assert AscendingBelow(idx, |hs|);
    assert Combination(hs, i, forAspects) == Pick(hs, idx);
  }

  /** Without the aspects truncation, distinct charts give 2^K - 1 distinct combinations. */
  lemma CombinationsDistinct<T>(hs: seq<T>, i: nat, j: nat)
    requires forall k, l :: 0 <= k < l < |hs| ==> hs[k] != hs[l]
    requires 1 <= i < Pow2(|hs|) && 1 <= j < Pow2(|hs|) && i != j
    ensures Combination(hs, i, false) != Combination(hs, j, false)
  {
    WidthBound(i, |hs|);
    WidthBound(j, |hs|);
    if Combination(hs, i, false) == Combination(hs, j, false) {
      PickInjective(hs, BitIndices(i, 0), BitIndices(j, 0));
      BitIndicesInjective(i, j, 0);
    }
  }

  /**
   * As written, aspects mode repeats combinations once there are three
   * charts: counter 3 (the first two charts) and counter 7 (all three,
   * truncated to the first two) give the same list.
   */
  lemma AspectCombinationsRepeat<T>(hs: seq<T>)
    requires |hs| >= 3
    ensures Pow2(|hs|) >= 8
    ensures Combination(hs, 3, true) == Combination(hs, 7, true) == [hs[0], hs[1]]
  {
    Pow2Monotone(3, |hs|);
    assert Pow2(3) == 8;
    BitsOfThreeAndSeven();
    FirstTwoOfThree(hs, 3);
    FirstTwoOfThree(hs, 7);
  }

  /** Counters 3 and 7 both read as the first two charts in aspects mode. */
  lemma FirstTwoOfThree<T>(hs: seq<T>, i: nat)
    requires |hs| >= 3 && i < Pow2(|hs|)
    requires BitIndices(i, 0) == [0, 1] || BitIndices(i, 0) == [0, 1, 2]
    ensures Combination(hs, i, true) == [hs[0], hs[1]]
  {
    var picked := Pick(hs, BitIndices(i, 0));
    assert picked[0] == hs[0] && picked[1] == hs[1];
    assert Truncate(picked, true) == picked[..2];
  }

  lemma BitsOfThreeAndSeven()
    ensures BitIndices(3, 0) == [0, 1] && BitIndices(7, 0) == [0, 1, 2]
  {
    assert BitIndices(1, 1) == [1] + BitIndices(0, 2) == [1];
    assert BitIndices(1, 2) == [2] + BitIndices(0, 3) == [2];
    assert BitIndices(3, 1) == [1] + BitIndices(1, 2) == [1, 2];
    assert BitIndices(3, 0) == [0] + BitIndices(1, 1);
    assert BitIndices(7, 0) == [0] + BitIndices(3, 1);
  }

  lemma {:induction false} Pow2Monotone(a: nat, b: nat)
    requires a <= b
    ensures Pow2(a) <= Pow2(b)
  {
    if a < b {
      Pow2Monotone(a, b - 1);
    }
  }

  // ---------------------------------------------------------------------
  // The combinations the aspects mode is documented to give
  // ---------------------------------------------------------------------

  /** Each chart on its own, in chart order. */
  function Singles<T>(hs: seq<T>): (r: seq<seq<T>>)
    ensures |r| == |hs| && forall k :: 0 <= k < |hs| ==> r[k] == [hs[k]]
  {
    seq(|hs|, k requires 0 <= k < |hs| => [hs[k]])
  }

  /** The pairs whose later chart is `hs[b]`, for b below `n`, in counter order. */
  function PairsBelow<T>(hs: seq<T>, n: nat): (r: seq<seq<T>>)
    requires n <= |hs|
    ensures forall k :: 0 <= k < |r| ==> exists a, b :: 0 <= a < b < n && r[k] == [hs[a], hs[b]]
  {
    if n == 0 then []
    else PairsBelow(hs, n - 1) + seq(n - 1, a requires 0 <= a < n - 1 => [hs[a], hs[n - 1]])
  }

  lemma {:induction false} PairsBelowLength<T>(hs: seq<T>, n: nat)
    requires n <= |hs|
    ensures 2 * |PairsBelow(hs, n)| == n * (n - 1)
  {
    if n > 0 {
      PairsBelowLength(hs, n - 1);
      assert n * (n - 1) == (n - 1) * (n - 2) + 2 * (n - 1);
    }
  }

  /** The one- and two-chart combinations, each once: what aspects mode is documented to return. */
  function AspectCombinations<T>(hs: seq<T>): (r: seq<seq<T>>)
  {
    Singles(hs) + PairsBelow(hs, |hs|)
  }

  /**
   * The documented combinations number N(N+1)/2, are sorted by size, have
   * one or two charts each, and distinct charts give distinct entries.
   */
  lemma AspectCombinationsFacts<T>(hs: seq<T>)
    requires forall k, l :: 0 <= k < l < |hs| ==> hs[k] != hs[l]
    ensures 2 * |AspectCombinations(hs)| == |hs| * (|hs| + 1)
    ensures SortedBy(AspectCombinations(hs), Size)
    ensures forall k :: 0 <= k < |AspectCombinations(hs)| ==> 1 <= |AspectCombinations(hs)[k]| <= 2
    ensures forall k, l :: 0 <= k < l < |AspectCombinations(hs)| ==> AspectCombinations(hs)[k] != AspectCombinations(hs)[l]
  {
    var n := |hs|;
    var s, p := Singles(hs), PairsBelow(hs, n);
    PairsBelowLength(hs, n);
    PairsBelowDistinct(hs, n);
    assert n * (n + 1) == n * (n - 1) + 2 * n;
    forall k | 0 <= k < |p| ensures |p[k]| == 2 {
      var a, b :| 0 <= a < b < n && p[k] == [hs[a], hs[b]];
    }
  }

  lemma {:induction false} PairsBelowDistinct<T>(hs: seq<T>, n: nat)
    requires n <= |hs|
    requires forall k, l :: 0 <= k < l < |hs| ==> hs[k] != hs[l]
    ensures forall k, l :: 0 <= k < l < |PairsBelow(hs, n)| ==> PairsBelow(hs, n)[k] != PairsBelow(hs, n)[l]
  {
    if n > 0 {
      PairsBelowDistinct(hs, n - 1);
      var init := PairsBelow(hs, n - 1);
      var row := seq(n - 1, a requires 0 <= a < n - 1 => [hs[a], hs[n - 1]]);
      var r := PairsBelow(hs, n);
      assert r == init + row;
      forall k, l | 0 <= k < l < |r| ensures r[k] != r[l] {
        if l >= |init| {
          assert r[l] == [hs[l - |init|], hs[n - 1]];
          if k >= |init| {
            assert r[k] == [hs[k - |init|], hs[n - 1]];
          } else {
            assert r[k] == init[k];
            assert exists a, b :: 0 <= a < b < n - 1 && init[k] == [hs[a], hs[b]];
            var a, b :| 0 <= a < b < n - 1 && init[k] == [hs[a], hs[b]];
            assert r[k][1] == hs[b] != hs[n - 1] == r[l][1];
          }
        }
      }
    }
  }

  /**
   * One step of the cypher loop of heavenCombinations: taking the chart at
   * the lowest bit (while fewer than two are taken in aspects mode) and
   * shifting the cypher keeps the truncated combination unchanged.
   */
  lemma CypherStep<T>(hs: seq<T>, next: seq<T>, taken: seq<T>, c: nat, n: nat, forAspects: bool)
    requires c > 0 && n < |hs| && n + 1 + Width(c / 2) <= |hs| && (forAspects ==> |next| <= 2)
    requires taken == if c % 2 == 1 && (!forAspects || |next| < 2) then next + [hs[n]] else next
    ensures Truncate(taken + Pick(hs, BitIndices(c / 2, n + 1)), forAspects) == Truncate(next + Pick(hs, BitIndices(c, n)), forAspects)
  {
    var rest := Pick(hs, BitIndices(c / 2, n + 1));
    if c % 2 == 1 {
      PickOdd(hs, c, n);
      if forAspects && |next| == 2 {
        TruncateFull(next, [hs[n]] + rest);
        TruncateFull(next, rest);
      } else {
        assert taken == next + [hs[n]];
        AppendAssociative(next, [hs[n]], rest);
      }
    } else {
      assert BitIndices(c, n) == BitIndices(c / 2, n + 1);
    }
  }

  lemma AppendEmpty<T>(a: seq<T>, b: seq<T>)
    ensures a == [] ==> a + b == b
    ensures b == [] ==> a + b == a
  {
  }

  lemma AppendAssociative<T>(a: seq<T>, b: seq<T>, c: seq<T>)
    ensures (a + b) + c == a + (b + c)
  {
  }

  /** An odd cypher picks the element at its lowest bit first. */
  lemma PickOdd<T>(hs: seq<T>, c: nat, n: nat)
    requires c % 2 == 1 && n < |hs| && n + 1 + Width(c / 2) <= |hs|
    ensures Pick(hs, BitIndices(c, n)) == [hs[n]] + Pick(hs, BitIndices(c / 2, n + 1))
  {
    assert BitIndices(c, n) == [n] + BitIndices(c / 2, n + 1);
  }

  /** In aspects mode a list that already holds two keeps just those. */
  lemma TruncateFull<T>(two: seq<T>, rest: seq<T>)
    requires |two| == 2
    ensures Truncate(two + rest, true) == two
  {
    if rest != [] {
      assert (two + rest)[..2] == two;
    } else {
      assert two + rest == two;
    }
  }
}
