/**
 * The pattern analysis of a chart combination: the patterns found, grouped
 * by the harmonic they were found at, with per-harmonic statistics.
 */
module PatternAnalyses {
  import opened CelestialMechanics
  import opened Patterns

  /** The average strengths of `ps` added up. */
  function StrengthSum(ps: seq<Pattern>): real
    reads ps
    requires forall k :: 0 <= k < |ps| ==> ValidConfig(ps[k].config)
  {
    if ps == [] then 0.0 else StrengthSum(ps[..|ps| - 1]) + ps[|ps| - 1].AverageStrength()
  }

  /** The sizes of `ps` added up. */
  function SizeSum(ps: seq<Pattern>): int
    reads ps
  {
    if ps == [] then 0 else SizeSum(ps[..|ps| - 1]) + ps[|ps| - 1].Size()
  }

  /** Each pattern contributes at most 100 to the strength sum. */
  lemma {:induction false} StrengthSumBound(ps: seq<Pattern>)
    requires forall k :: 0 <= k < |ps| ==> ValidConfig(ps[k].config) && ps[k].Valid()
    ensures StrengthSum(ps) <= 100.0 * |ps| as real
  {
    if ps != [] {
      StrengthSumBound(ps[..|ps| - 1]);
      AverageStrengthBounds(ps[|ps| - 1]);
    }
  }

  /** Patterns of at least two astras each hold at least twice as many astras as there are patterns. */
  lemma {:induction false} SizeSumAtLeastTwice(ps: seq<Pattern>)
    requires forall k :: 0 <= k < |ps| ==> ps[k].Size() >= 2
    ensures SizeSum(ps) >= 2 * |ps|
  {
    if ps != [] {
      SizeSumAtLeastTwice(ps[..|ps| - 1]);
    }
  }

  /** The size sum does not depend on how the list is split. */
  lemma {:induction false} SizeSumConcat(a: seq<Pattern>, b: seq<Pattern>)
    ensures SizeSum(a + b) == SizeSum(a) + SizeSum(b)
  {
    if b != [] {
      SizeSumConcat(a, b[..|b| - 1]);
      assert (a + b)[..|a + b| - 1] == a + b[..|b| - 1];
    } else {
      assert a + b == a;
    }
  }

  class PatternAnalysis {
    /** The patterns of each harmonic, in the order they were added. */
    var listMap: map<int, seq<Pattern>>

    /** Every stored list is non-empty and holds patterns of its own harmonic. */
    ghost predicate Valid()
      reads this
    {
      forall h :: h in listMap ==> listMap[h] != [] && forall k :: 0 <= k < |listMap[h]| ==> listMap[h][k].harmonic == h
    }

    constructor ()
      ensures Valid() && listMap == map[]
    {
      listMap := map[];
    }

    /** getPatternsFor: the stored list, or an empty one for a harmonic without patterns. */
    function GetPatternsFor(harmonic: int): (r: seq<Pattern>)
      reads this
      ensures Valid() ==> (r == [] <==> harmonic !in listMap)
      ensures Valid() ==> forall k :: 0 <= k < |r| ==> r[k].harmonic == harmonic
    {
      if harmonic in listMap then listMap[harmonic] else []
    }

    /** size: the number of harmonics with patterns. */
    function Size(): (r: int)
      reads this
      ensures Valid() ==> r == |set h | h in listMap && GetPatternsFor(h) != []|
    {
      assert Valid() ==> (set h | h in listMap && GetPatternsFor(h) != []) == listMap.Keys;
      |listMap|
    }

    /**
     * addPattern: the pattern is appended to the list of its harmonic, which
     * is created when absent; the other harmonics keep their lists.
     */
    method AddPattern(pattern: Pattern)
      requires Valid()
      modifies this
      ensures Valid()
      ensures GetPatternsFor(pattern.harmonic) == old(GetPatternsFor(pattern.harmonic)) + [pattern]
      ensures forall h :: h != pattern.harmonic ==> GetPatternsFor(h) == old(GetPatternsFor(h))
      ensures listMap == old(listMap)[pattern.harmonic := old(GetPatternsFor(pattern.harmonic)) + [pattern]]
      ensures listMap.Keys == old(listMap.Keys) + {pattern.harmonic}
      ensures Size() == old(Size()) + (if pattern.harmonic in old(listMap) then 0 else 1)
    {
      var harmonic := pattern.harmonic;
      if harmonic !in listMap {
        listMap := listMap[harmonic := []];
      }
      listMap := listMap[harmonic := listMap[harmonic] + [pattern]];
    }

    /** getAverageStrengthForHarmonic: the mean of the patterns' average strengths, 0 without patterns. */
    function AverageStrengthForHarmonic(harmonic: int): (r: real)
      reads this, GetPatternsFor(harmonic)
      requires forall k :: 0 <= k < |GetPatternsFor(harmonic)| ==> ValidConfig(GetPatternsFor(harmonic)[k].config)
    {
      var patterns := GetPatternsFor(harmonic);
      if patterns == [] then 0.0 else StrengthSum(patterns) / |patterns| as real
    }

    /** getAstrasQuantityFor: the number of astras in all patterns of the harmonic, 0 without patterns. */
    function AstrasQuantityFor(harmonic: int): (r: int)
      reads this, GetPatternsFor(harmonic)
    {
      var patterns := GetPatternsFor(harmonic);
      if patterns == [] then 0 else SizeSum(patterns)
    }
  }

  /** The mean strength of a harmonic is at most 100, and 0 when it has no patterns. */
  lemma AverageStrengthForHarmonicBound(analysis: PatternAnalysis, harmonic: int)
    requires forall k :: 0 <= k < |analysis.GetPatternsFor(harmonic)| ==>
      ValidConfig(analysis.GetPatternsFor(harmonic)[k].config) && analysis.GetPatternsFor(harmonic)[k].Valid()
    ensures analysis.AverageStrengthForHarmonic(harmonic) <= 100.0
    ensures harmonic !in analysis.listMap ==> analysis.AverageStrengthForHarmonic(harmonic) == 0.0
  {
    var ps := analysis.GetPatternsFor(harmonic);
    if ps != [] {
      StrengthSumBound(ps);
      var n := |ps| as real;
      var s := StrengthSum(ps);
      assert s / n <= 100.0 by {
        assert s <= 100.0 * n;
        assert s / n * n == s;
      }
    }
  }

  /** Valid patterns have two astras or more, so a harmonic's astras number at least twice its patterns. */
  lemma AstrasQuantityForValid(analysis: PatternAnalysis, harmonic: int)
    requires forall k :: 0 <= k < |analysis.GetPatternsFor(harmonic)| ==> analysis.GetPatternsFor(harmonic)[k].Size() >= 2
    ensures analysis.AstrasQuantityFor(harmonic) >= 2 * |analysis.GetPatternsFor(harmonic)|
  {
    SizeSumAtLeastTwice(analysis.GetPatternsFor(harmonic));
  }
}
