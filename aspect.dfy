/**
 * An aspect: one harmonic resonance recognised in the arc between two
 * points, with its clearance (distance from the exact aspect), strength
 * and depth (how many multiples of its harmonic it survives into).
 */
module Aspects {
  import opened JavaLang
  import opened CelestialMechanics

  datatype Aspect = Aspect(numeric: int, multiplicity: int, clearance: real, strength: real, depth: int)
  {
    /**
     * hasResonance: whether the aspect shows in the chart of `harmonic`,
     * i.e. the harmonic is a multiple of this aspect's numeric and the
     * multiple does not exceed the depth.
     */
    predicate HasResonance(harmonic: int)
      requires numeric != 0
    {
      JavaRem(harmonic, numeric) == 0 && JavaDiv(harmonic, numeric) <= depth
    }

    /** getStrengthLevel: a word for the depth bucket. */
    function StrengthLevel(): string
    {
      if depth <= 1 then "- приблизительный "
      else if depth == 2 then "- уверенный "
      else if depth <= 5 then "- глубокий "
      else if depth <= 12 then "- точный "
      else if depth <= 24 then "- глубоко точный "
      else "- крайне точный "
    }

    /** strengthRating: stars for the depth bucket. */
    function StrengthRating(): string
    {
      if depth <= 1 then "★"
      else if depth == 2 then "★★"
      else if depth <= 5 then "★★★"
      else if depth <= 12 then "★★★★"
      else if depth <= 24 then "★★★★★"
      else "✰✰✰✰✰"
    }
  }

  /**
   * `(int) floor(orb / clearance)` on doubles: a zero clearance gives an
   * infinite quotient, which the cast saturates to the largest int.
   */
  function Depth(orb: real, clearance: real): (d: int)
    requires orb > 0.0
    ensures IsInt32(d)
    ensures clearance == 0.0 ==> d == INT_MAX
    ensures clearance > 0.0 && orb / clearance < INT_MAX as real ==>
      d as real <= orb / clearance < d as real + 1.0
  {
    if clearance == 0.0 then INT_MAX else ToInt((orb / clearance).Floor as real)
  }

  /**
   * The aspect constructor; the multiplicity comes from a harmonic
   * factorisation that is not part of this model and is passed in.
   */
  function NewAspect(numeric: int, clearance: real, orb: real, multiplicity: int): (a: Aspect)
    requires 0.0 < orb < HALF_CIRCLE
    ensures a.numeric == numeric && a.multiplicity == multiplicity && a.clearance == clearance
    ensures clearance == 0.0 ==> a.strength == 100.0 && a.depth == INT_MAX
    ensures 0.0 <= clearance <= orb ==> 0.0 <= a.strength <= 100.0
    ensures orb < clearance <= HALF_CIRCLE ==> -100.0 <= a.strength < 0.0
  {
    StrengthScale(orb, clearance);
    Aspect(numeric, multiplicity, clearance, Strength(orb, clearance), Depth(orb, clearance))
  }

  /**
   * The depth of an aspect with a positive clearance counts the multiples
   * of the clearance that still fit in the orb: depth >= k exactly when
   * k times the clearance is within the orb.
   */
  lemma DepthCountsMultiples(orb: real, clearance: real, k: int)
    requires orb > 0.0 && clearance > 0.0
    requires 1 <= k <= INT_MAX
    ensures Depth(orb, clearance) >= k <==> k as real * clearance <= orb
  {
    var q := orb / clearance;
    assert q * clearance == orb;
    if q < INT_MAX as real {
      var d := Depth(orb, clearance);
      assert d as real <= q < d as real + 1.0;
      if d >= k {
        MulMonotone(k as real, q, clearance);
      }
      if k as real * clearance <= orb {
        if q < k as real {
          MulStrict(q, k as real, clearance);
        }
      }
    } else {
      assert Depth(orb, clearance) == INT_MAX by {
        assert (orb / clearance).Floor >= INT_MAX;
      }
      MulMonotone(k as real, q, clearance);
    }
  }

  lemma MulMonotone(x: real, y: real, c: real)
    requires c > 0.0 && x <= y
    ensures x * c <= y * c
  {
  }

  lemma MulStrict(x: real, y: real, c: real)
    requires c > 0.0 && x < y
    ensures x * c < y * c
  {
  }

  /** An aspect always shows in its own harmonic when it has any depth at all. */
  lemma OwnHarmonic(a: Aspect)
    requires a.numeric > 0
    ensures a.HasResonance(a.numeric) <==> a.depth >= 1
  {
  }

  /** An aspect of depth 0 shows in no harmonic from 1 up. */
  lemma NoDepthNoResonance(a: Aspect, harmonic: int)
    requires a.numeric > 0 && a.depth <= 0 && harmonic >= 1
    ensures !a.HasResonance(harmonic)
  {
    if JavaRem(harmonic, a.numeric) == 0 {
      assert JavaDiv(harmonic, a.numeric) * a.numeric == harmonic;
    }
  }

  /**
   * The `k`-th multiple of an aspect's harmonic shows the aspect exactly
   * when the depth reaches `k`; harmonics that are not multiples never do.
   */
  lemma ResonanceAtMultiples(a: Aspect, harmonic: int)
    requires a.numeric > 0 && harmonic >= 0
    ensures a.HasResonance(harmonic) <==> harmonic % a.numeric == 0 && harmonic / a.numeric <= a.depth
  {
  }

  /**
   * An aspect built from a positive clearance shows in harmonic k·numeric
   * exactly when k times the clearance is within the orb.
   */
  lemma ResonanceWithinOrb(numeric: int, clearance: real, orb: real, multiplicity: int, k: int)
    requires 0.0 < orb < HALF_CIRCLE && clearance > 0.0
    requires numeric > 0 && 1 <= k <= INT_MAX
    ensures NewAspect(numeric, clearance, orb, multiplicity).HasResonance(k * numeric)
      <==> k as real * clearance <= orb
  {
    var a := NewAspect(numeric, clearance, orb, multiplicity);
    ResonanceAtMultiples(a, k * numeric);
    assert (k * numeric) % numeric == 0 && (k * numeric) / numeric == k by {
      MultipleDivides(k, numeric);
    }
    DepthCountsMultiples(orb, clearance, k);
  }

  lemma MultipleDivides(k: int, n: int)
    requires n > 0 && k >= 0
    ensures (k * n) % n == 0 && (k * n) / n == k
  {
    var q, r := (k * n) / n, (k * n) % n;
    assert (k - q) * n == r;
    if k - q >= 1 {
      MulAtLeast(k - q, n);
    }
  }

  lemma MulAtLeast(d: int, n: int)
    requires d >= 1 && n > 0
    ensures d * n >= n
  {
    assert d * n == (d - 1) * n + n;
  }

  /** A trine persists in the sextile chart at depth 2 and in the semi-sextile chart at depth 4. */
  lemma TrinePersistence(a: Aspect)
    requires a.numeric == 3
    ensures a.HasResonance(6) <==> a.depth >= 2
    ensures a.HasResonance(12) <==> a.depth >= 4
  {
    ResonanceAtMultiples(a, 6);
    ResonanceAtMultiples(a, 12);
  }

  /** The depth bucket, numbered 0 to 5, that both the level word and the star rating follow. */
  function Bucket(depth: int): (b: nat)
    ensures b <= 5
  {
    if depth <= 1 then 0
    else if depth == 2 then 1
    else if depth <= 5 then 2
    else if depth <= 12 then 3
    else if depth <= 24 then 4
    else 5
  }

  /**
   * The level word and the star rating each name the depth bucket and
   * nothing else: two aspects share a word exactly when they share a bucket,
   * and exactly when they share a rating.
   */
  lemma LevelAndRatingShareBuckets(a: Aspect, b: Aspect)
    ensures a.StrengthLevel() == b.StrengthLevel() <==> Bucket(a.depth) == Bucket(b.depth)
    ensures a.StrengthRating() == b.StrengthRating() <==> Bucket(a.depth) == Bucket(b.depth)
  {
  }
}
