/**
 * Geometry of the zodiac circle: positions are degrees of ecliptic longitude,
 * arcs are measured in degrees, and every position is taken modulo 360.
 */
module CelestialMechanics {
  import opened JavaLang
  import opened Wrappers
  import opened Sorting

  const CIRCLE: real := 360.0
  const HALF_CIRCLE: real := 180.0

  /** `p % 360.0` on a double: the remainder of truncating division, with the sign of `p`. */
  function Rem360(p: real): (r: real)
    ensures p >= 0.0 ==> 0.0 <= r < CIRCLE
    ensures p < 0.0 ==> -CIRCLE < r <= 0.0
  {
    p - CIRCLE * (Trunc(p / CIRCLE) as real)
  }

  /** normalizeCoordinate: brings a position into [0, 360). */
  function NormalizeCoordinate(p: real): (r: real)
    ensures 0.0 <= r < CIRCLE
  {
    var q := Rem360(p);
    if q < 0.0 then q + CIRCLE else q
  }

  /** The Euclidean residue of `p` modulo 360: the point of [0, 360) congruent to `p`. */
  function Residue(p: real): (r: real)
    ensures 0.0 <= r < CIRCLE
  {
    p - CIRCLE * ((p / CIRCLE).Floor as real)
  }

  /** Two points of [0, 360) that differ by whole turns are equal. */
  lemma SameTurnSamePoint(x: real, y: real, k: int)
    requires 0.0 <= x < CIRCLE && 0.0 <= y < CIRCLE
    requires x - y == CIRCLE * k as real
    ensures x == y
  {
  }

  /** Normalisation is the residue modulo 360: it lies in [0, 360) and is congruent to `p`. */
  lemma NormalizeIsResidue(p: real)
    ensures NormalizeCoordinate(p) == Residue(p)
  {
    var t := Trunc(p / CIRCLE);
    var f := (p / CIRCLE).Floor;
    var shift := if Rem360(p) < 0.0 then 1 else 0;
    assert NormalizeCoordinate(p) == p - CIRCLE * (t - shift) as real;
    SameTurnSamePoint(NormalizeCoordinate(p), Residue(p), f - (t - shift));
  }

  /** Positions a whole number of turns apart normalise to the same point. */
  lemma NormalizeShift(p: real, k: int)
    ensures NormalizeCoordinate(p + CIRCLE * k as real) == NormalizeCoordinate(p)
  {
    NormalizeIsResidue(p);
    NormalizeIsResidue(p + CIRCLE * k as real);
    var f := (p / CIRCLE).Floor;
    var g := ((p + CIRCLE * k as real) / CIRCLE).Floor;
    SameTurnSamePoint(Residue(p + CIRCLE * k as real), Residue(p), g - k - f);
  }

  /** A position already in [0, 360) is left as it is. */
  lemma NormalizeInRange(p: real)
    requires 0.0 <= p < CIRCLE
    ensures NormalizeCoordinate(p) == p
  {
  }

  /** A position in [360, 720) loses one turn. */
  lemma NormalizeSecondTurn(p: real)
    requires CIRCLE <= p < 2.0 * CIRCLE
    ensures NormalizeCoordinate(p) == p - CIRCLE
  {
    NormalizeShift(p - CIRCLE, 1);
  }

  /** getArc: the shorter arc between two positions. */
  function Arc(a: real, b: real): (r: real)
    ensures 0.0 <= r <= HALF_CIRCLE
  {
    var d := Abs(NormalizeCoordinate(a) - NormalizeCoordinate(b));
    if d > HALF_CIRCLE then CIRCLE - d else d
  }

  function Abs(x: real): real { if x < 0.0 then -x else x }

  /** getVectorArc: the arc travelled forward (along the zodiac) from `a` to `b`. */
  function VectorArc(a: real, b: real): (r: real)
    ensures 0.0 <= a < CIRCLE && 0.0 <= b < CIRCLE ==> 0.0 <= r < CIRCLE
    ensures r == b - a || r == CIRCLE + (b - a)
  {
    var arc := b - a;
    if arc < 0.0 then CIRCLE + arc else arc
  }

  /**
   * The arc is symmetric, and it is the shorter of the two ways round the
   * circle between the normalised positions.
   */
  lemma ArcIsShorterWay(a: real, b: real)
    ensures Arc(a, b) == Arc(b, a)
    ensures var x, y := NormalizeCoordinate(a), NormalizeCoordinate(b);
      Arc(a, b) == Min(VectorArc(x, y), VectorArc(y, x))
  {
  }

  function Min(x: real, y: real): real { if x <= y then x else y }

  /** The forward arc between positions of [0, 360) lies in [0, 360) and leads from `a` to `b`. */
  lemma VectorArcLeadsTo(a: real, b: real)
    requires 0.0 <= a < CIRCLE && 0.0 <= b < CIRCLE
    ensures 0.0 <= VectorArc(a, b) < CIRCLE
    ensures NormalizeCoordinate(a + VectorArc(a, b)) == b
  {
    if b < a {
      NormalizeSecondTurn(a + VectorArc(a, b));
    }
  }

  /** Adding whole turns to either position does not change the arc. */
  lemma ArcShift(a: real, b: real, k: int)
    ensures Arc(a + CIRCLE * k as real, b) == Arc(a, b)
  {
    NormalizeShift(a, k);
  }

  /** The expectations of the unit tests of getArc and getVectorArc. */
  lemma ArcExamples()
    ensures Arc(0.0, 60.0) == 60.0 && Arc(210.0, 150.0) == 60.0
    ensures Arc(150.0, 150.0) == 0.0 && Arc(300.0, 60.0) == 120.0
    ensures VectorArc(0.0, 60.0) == 60.0 && VectorArc(60.0, 0.0) == 300.0
    ensures VectorArc(300.0, 60.0) == 120.0 && VectorArc(210.0, 150.0) == 300.0
  {
    NormalizeInRange(0.0);
    NormalizeInRange(60.0);
    NormalizeInRange(150.0);
    NormalizeInRange(210.0);
    NormalizeInRange(300.0);
  }

  /** normalizeArc: the distance between the two ends of an arc of any length. */
  function NormalizeArc(a: real): (r: real)
    ensures 0.0 <= r <= HALF_CIRCLE
  {
    Arc(NormalizeCoordinate(a), 0.0)
  }

  /** An arc that is already a shortest distance is its own normal form. */
  lemma NormalizeArcOfShortArc(a: real)
    requires 0.0 <= a <= HALF_CIRCLE
    ensures NormalizeArc(a) == a
  {
    NormalizeInRange(a);
    NormalizeInRange(0.0);
  }

  /** getArcForHarmonic: the distance between two positions in the chart of harmonic `h`. */
  function ArcForHarmonic(a: real, b: real, h: int): (r: real)
    ensures 0.0 <= r <= HALF_CIRCLE
  {
    NormalizeArc(Scale(Arc(a, b), h))
  }

  function Scale(arc: real, h: int): real
  {
    arc * h as real
  }

  /** The harmonic distance is symmetric, and in the first harmonic it is the plain arc. */
  lemma ArcForHarmonicProperties(a: real, b: real, h: int)
    ensures ArcForHarmonic(a, b, h) == ArcForHarmonic(b, a, h)
    ensures ArcForHarmonic(a, b, 1) == Arc(a, b)
  {
    ArcForHarmonicSymmetric(a, b, h);
    FirstHarmonic(a, b);
  }

  lemma ArcForHarmonicSymmetric(a: real, b: real, h: int)
    ensures ArcForHarmonic(a, b, h) == ArcForHarmonic(b, a, h)
  {
    ArcSymmetric(a, b);
    SameArcSameHarmonicArc(a, b, b, a, h);
  }

  lemma SameArcSameHarmonicArc(a: real, b: real, c: real, d: real, h: int)
    requires Arc(a, b) == Arc(c, d)
    ensures ArcForHarmonic(a, b, h) == ArcForHarmonic(c, d, h)
  {
  }



  lemma FirstHarmonic(a: real, b: real)
    ensures ArcForHarmonic(a, b, 1) == Arc(a, b)
  {
    var arc := Arc(a, b);
    assert Scale(arc, 1) == arc;
    NormalizeArcOfShortArc(arc);
  }

  lemma ArcSymmetric(a: real, b: real)
    ensures Arc(a, b) == Arc(b, a)
  {
  }

  /**
   * calculateStrength: how close a clearance is to an exact aspect, in
   * percent of the orb; negative beyond the orb.
   */
  function Strength(orb: real, clearance: real): (r: real)
    requires 0.0 < orb < HALF_CIRCLE
    ensures r >= 0.0 <==> clearance <= orb
    ensures 0.0 <= clearance ==> r <= 100.0
    ensures clearance <= HALF_CIRCLE ==> r >= -100.0
  {
    var delta := orb - clearance;
    if delta >= 0.0 then delta / orb * 100.0 else delta / (HALF_CIRCLE - orb) * 100.0
  }

  /**
   * An exact aspect has strength 100, one at the edge of the orb 0, one past
   * the orb a negative strength, down to -100 at a clearance of 180.
   */
  lemma StrengthScale(orb: real, clearance: real)
    requires 0.0 < orb < HALF_CIRCLE
    ensures Strength(orb, 0.0) == 100.0
    ensures Strength(orb, orb) == 0.0
    ensures Strength(orb, HALF_CIRCLE) == -100.0
    ensures clearance > orb ==> Strength(orb, clearance) < 0.0
    ensures 0.0 <= clearance <= HALF_CIRCLE ==> -100.0 <= Strength(orb, clearance) <= 100.0
  {
    var delta := orb - clearance;
    DivMonotone(delta, orb, orb);
    DivMonotone(clearance - HALF_CIRCLE, delta, HALF_CIRCLE - orb);
    DivMonotone(delta, 0.0, HALF_CIRCLE - orb);
    DivMonotone(0.0, delta, orb);
  }

  /** The strength never grows as the clearance grows. */
  lemma StrengthMonotone(orb: real, c1: real, c2: real)
    requires 0.0 < orb < HALF_CIRCLE
    requires c1 <= c2
    ensures Strength(orb, c2) <= Strength(orb, c1)
  {
    DivMonotone(orb - c2, orb - c1, orb);
    DivMonotone(orb - c2, orb - c1, HALF_CIRCLE - orb);
    DivMonotone(orb - c2, 0.0, HALF_CIRCLE - orb);
    DivMonotone(0.0, orb - c1, orb);
  }

  lemma DivMonotone(x: real, y: real, d: real)
    requires d > 0.0
    ensures x <= y ==> x / d <= y / d
    ensures x < y ==> x / d < y / d
    ensures (x / d) * d == x
  {
  }

  /** isAhead: whether `c` lies less than half a circle forward from `from`. */
  predicate IsAhead(from: real, c: real)
  {
    var delta := c - from;
    (delta >= 0.0 && delta < HALF_CIRCLE) || delta < -HALF_CIRCLE
  }

  /** For positions of [0, 360), isAhead means a forward arc shorter than half a circle. */
  lemma IsAheadMeansForward(from: real, c: real)
    requires 0.0 <= from < CIRCLE && 0.0 <= c < CIRCLE
    ensures IsAhead(from, c) <==> VectorArc(from, c) < HALF_CIRCLE
  {
  }

  /** findMedian: the midpoint of the shorter arc between two positions. */
  function FindMedian(a: real, b: real): (r: real)
    ensures 0.0 <= r < CIRCLE
  {
    var arc := Arc(a, b);
    var back := if NormalizeCoordinate(a + arc) == b then a else b;
    NormalizeCoordinate(back + arc / 2.0)
  }

  /** Going forward by the arc from one of two normalised positions reaches the other. */
  lemma ArcReachesOneWay(a: real, b: real)
    requires 0.0 <= a < CIRCLE && 0.0 <= b < CIRCLE
    ensures NormalizeCoordinate(a + Arc(a, b)) == b || NormalizeCoordinate(b + Arc(a, b)) == a
  {
    NormalizeInRange(a);
    NormalizeInRange(b);
    var arc := Arc(a, b);
    if a <= b {
      if b - a <= HALF_CIRCLE {
        NormalizeInRange(a + arc);
      } else {
        NormalizeSecondTurn(b + arc);
      }
    } else {
      if a - b <= HALF_CIRCLE {
        NormalizeInRange(b + arc);
      } else {
        NormalizeSecondTurn(a + arc);
      }
    }
  }

  /** The half-arc step from `x` lands at half the arc's distance from `x` and from `y`. */
  lemma HalfStep(x: real, y: real, arc: real)
    requires 0.0 <= x < CIRCLE && 0.0 <= y < CIRCLE && 0.0 <= arc <= HALF_CIRCLE
    requires NormalizeCoordinate(x + arc) == y
    ensures Arc(NormalizeCoordinate(x + arc / 2.0), x) == arc / 2.0
    ensures Arc(NormalizeCoordinate(x + arc / 2.0), y) == arc / 2.0
  {
    HalfStepAt(x, y, arc, arc / 2.0, NormalizeCoordinate(x + arc / 2.0));
  }

  /** HalfStep with the half arc `h` and the point `m` reached by it named. */
  lemma HalfStepAt(x: real, y: real, arc: real, h: real, m: real)
    requires 0.0 <= x < CIRCLE && 0.0 <= y < CIRCLE && 0.0 <= arc <= HALF_CIRCLE
    requires NormalizeCoordinate(x + arc) == y
    requires h == arc / 2.0 && m == NormalizeCoordinate(x + h)
    ensures Arc(m, x) == h && Arc(m, y) == h
  {
    assert 2.0 * h == arc;
    if x + h < CIRCLE {
      NormalizeInRange(x + h);
      assert m == x + h;
    } else {
      NormalizeSecondTurn(x + h);
      assert m == x + h - CIRCLE;
    }
    if x + arc < CIRCLE {
      NormalizeInRange(x + arc);
      assert y == x + 2.0 * h;
    } else {
      NormalizeSecondTurn(x + arc);
      assert y == x + 2.0 * h - CIRCLE;
    }
    ArcInRange(m, x);
    ArcInRange(m, y);
    HalfWay(x, y, h, m);
  }

  /** The shorter way between two positions of [0, 360). */
  function ShortWay(a: real, b: real): real
  {
    if Abs(a - b) > HALF_CIRCLE then CIRCLE - Abs(a - b) else Abs(a - b)
  }

  /** Between positions of [0, 360) the arc is the shorter way. */
  lemma ArcInRange(a: real, b: real)
    requires 0.0 <= a < CIRCLE && 0.0 <= b < CIRCLE
    ensures Arc(a, b) == ShortWay(a, b)
  {
    NormalizeInRange(a);
    NormalizeInRange(b);
  }

  /** Half of a forward arc from `x` to `y`, both taken round the circle, is that far from each. */
  lemma HalfWay(x: real, y: real, h: real, m: real)
    requires 0.0 <= x < CIRCLE && 0.0 <= y < CIRCLE && 0.0 <= m < CIRCLE && 0.0 <= h <= HALF_CIRCLE / 2.0
    requires m == x + h || m == x + h - CIRCLE
    requires y == x + 2.0 * h || y == x + 2.0 * h - CIRCLE
    ensures ShortWay(m, x) == h && ShortWay(m, y) == h
  {
  }

  /** The median of two normalised positions is half their arc away from each. */
  lemma MedianIsEquidistant(a: real, b: real)
    requires 0.0 <= a < CIRCLE && 0.0 <= b < CIRCLE
    ensures Arc(FindMedian(a, b), a) == Arc(a, b) / 2.0
    ensures Arc(FindMedian(a, b), b) == Arc(a, b) / 2.0
  {
    var arc := Arc(a, b);
    ArcReachesOneWay(a, b);
    if NormalizeCoordinate(a + arc) == b {
      assert FindMedian(a, b) == NormalizeCoordinate(a + arc / 2.0);
      HalfStep(a, b, arc);
    } else {
      assert FindMedian(a, b) == NormalizeCoordinate(b + arc / 2.0);
      HalfStep(b, a, arc);
    }
  }

  /**
   * degreesToCoors: the position, normalised and rounded to the nearest
   * arc-second, as [degrees, minutes, seconds].
   */
  function DegreesToCoors(p: real): (r: seq<int>)
    ensures |r| == 3
  {
    var inSeconds := ToInt(Round(NormalizeCoordinate(p) * 3600.0) as real);
    [inSeconds / 3600, inSeconds % 3600 / 60, inSeconds % 60]
  }

  /** The arc-second count that degreesToCoors rounds to. */
  function SecondsOf(p: real): int
  {
    Round(NormalizeCoordinate(p) * 3600.0)
  }

  /**
   * The three numbers are a degree count up to 360 and minutes and seconds
   * below 60, together the position rounded to the nearest arc-second.
   */
  lemma CoorsAreRoundedPosition(p: real)
    ensures var r := DegreesToCoors(p);
      0 <= r[0] <= 360 && 0 <= r[1] < 60 && 0 <= r[2] < 60
      && r[0] * 3600 + r[1] * 60 + r[2] == SecondsOf(p)
    ensures 0 <= SecondsOf(p) <= 1296000
    ensures -0.5 <= SecondsOf(p) as real - NormalizeCoordinate(p) * 3600.0 <= 0.5
  {
    var s := SecondsOf(p);
    assert 0 <= s <= 1296000;
    assert ToInt(s as real) == s;
    SplitSeconds(s);
  }

  /** A count of arc-seconds splits into degrees, minutes below 60 and seconds below 60. */
  lemma SplitSeconds(s: int)
    requires 0 <= s <= 1296000
    ensures 0 <= s / 3600 <= 360 && 0 <= s % 3600 / 60 < 60 && 0 <= s % 60 < 60
    ensures s / 3600 * 3600 + s % 3600 / 60 * 60 + s % 60 == s
  {
    assert s % 3600 / 60 * 60 + s % 60 == s % 3600;
  }

  /**
   * degreesToSignAndCoors: [sign number, degree within the sign, minutes,
   * seconds], the sign number counted from 1 for Aries.
   */
  function DegreesToSignAndCoors(p: real): (r: seq<int>)
    ensures |r| == 4
  {
    var c := DegreesToCoors(p);
    [c[0] / 30 + 1, c[0] % 30, c[1], c[2]]
  }

  /** The sign and degree split the whole degrees by thirty. */
  lemma SignAndCoorsSplitDegrees(p: real)
    ensures var r, c := DegreesToSignAndCoors(p), DegreesToCoors(p);
      (r[0] - 1) * 30 + r[1] == c[0] && 0 <= r[1] < 30 && r[2] == c[1] && r[3] == c[2]
      && 1 <= r[0] <= 13
  {
    CoorsAreRoundedPosition(p);
  }

  /**
   * A position less than half an arc-second short of a full turn rounds up to
   * 360°, and degreesToSignAndCoors then reports a thirteenth sign.
   */
  lemma ThirteenthSign()
    ensures DegreesToSignAndCoors(359.9999) == [13, 0, 0, 0]
  {
    NormalizeInRange(359.9999);
    assert Round(359.9999 * 3600.0) == 1296000;
  }

  /**
   * degreesToSignAndCoors with the rounded count taken modulo a full turn, so
   * that 360° reads as 0° Aries.
   */
  function DegreesToSignAndCoorsWrapped(p: real): (r: seq<int>)
    ensures |r| == 4
  {
    var s := SecondsOf(p) % 1296000;
    var d := s / 3600;
    [d / 30 + 1, d % 30, s % 3600 / 60, s % 60]
  }

  /** The wrapped conversion always names one of the twelve signs and agrees below 360°. */
  lemma WrappedSignInRange(p: real)
    ensures var r := DegreesToSignAndCoorsWrapped(p);
      1 <= r[0] <= 12 && 0 <= r[1] < 30 && 0 <= r[2] < 60 && 0 <= r[3] < 60
      && ((r[0] - 1) * 30 + r[1]) * 3600 + r[2] * 60 + r[3] == SecondsOf(p) % 1296000
    ensures SecondsOf(p) < 1296000 ==> DegreesToSignAndCoorsWrapped(p) == DegreesToSignAndCoors(p)
  {
    CoorsAreRoundedPosition(p);
  }

  // ---- arrangeAsChain and calculateAvg ----

  /** The forward gap that ends at position `i` of a cyclic list: at 0 it is the wrap from last to first. */
  function Gap<T>(s: seq<T>, pos: T -> real, i: nat): real
    requires i < |s|
  {
    if i == 0 then VectorArc(pos(s[|s| - 1]), pos(s[0])) else VectorArc(pos(s[i - 1]), pos(s[i]))
  }

  /** The index of the first strictly largest gap among the gaps ending at 0 .. n-1. */
  function MaxGapIndex<T>(s: seq<T>, pos: T -> real, n: nat): (k: nat)
    requires 1 <= n <= |s|
    ensures k < n
  {
    if n == 1 then 0
    else
      var k := MaxGapIndex(s, pos, n - 1);
      if Gap(s, pos, n - 1) > Gap(s, pos, k) then n - 1 else k
  }

  /** The gap found is a largest one, and every gap before it is strictly smaller. */
  lemma {:induction false} MaxGapIndexIsFirstMaximum<T>(s: seq<T>, pos: T -> real, n: nat)
    requires 1 <= n <= |s|
    ensures var k := MaxGapIndex(s, pos, n);
      (forall j :: 0 <= j < n ==> Gap(s, pos, j) <= Gap(s, pos, k))
      && (forall j :: 0 <= j < k ==> Gap(s, pos, j) < Gap(s, pos, k))
  {
    if n > 1 {
      MaxGapIndexIsFirstMaximum(s, pos, n - 1);
    }
  }

  /** Collections.rotate(list, -k): the list read from position k onwards, wrapping round. */
  function RotateLeft<T>(s: seq<T>, k: nat): (r: seq<T>)
    requires k <= |s|
    ensures |r| == |s|
  {
    s[k..] + s[..k]
  }

  /** The arrangement arrangeAsChain produces. */
  function Chain<T>(s: seq<T>, pos: T -> real): (r: seq<T>)
    ensures |r| == |s|
  {
    if |s| <= 1 then s
    else
      var t := SortBy(s, pos);
      RotateLeft(t, MaxGapIndex(t, pos, |t|))
  }

  /**
   * arrangeAsChain leaves a permutation of its input that is the ascending
   * order rotated so that the forward gap from the last point to the first is
   * at least every gap between neighbours; the first strictly largest gap wins,
   * so when the wrap gap is already largest nothing is rotated.
   */
  lemma ChainProperties<T>(s: seq<T>, pos: T -> real)
    requires |s| > 1
    ensures var c, t := Chain(s, pos), SortBy(s, pos);
      multiset(c) == multiset(s)
      && (exists k :: 0 <= k < |t| && RotatedAtFirstMaximum(t, pos, c, k))
      && (forall i :: 1 <= i < |c| ==> VectorArc(pos(c[i - 1]), pos(c[i])) <= VectorArc(pos(c[|c| - 1]), pos(c[0])))
      && ((forall j :: 0 <= j < |t| ==> Gap(t, pos, j) <= Gap(t, pos, 0)) ==> c == t)
  {
    ChainPermutes(s, pos);
    ChainRotatesAtFirstMaximum(s, pos);
    ChainWrapGapIsLargest(s, pos);
    ChainUnrotatedOnTie(s, pos);
  }

  /** `c` is `t` read from position `k` onwards, and every gap before the one ending at `k` is strictly smaller. */
  ghost predicate RotatedAtFirstMaximum<T>(t: seq<T>, pos: T -> real, c: seq<T>, k: nat)
    requires k < |t|
  {
    c == RotateLeft(t, k) && forall j :: 0 <= j < k ==> Gap(t, pos, j) < Gap(t, pos, k)
  }

  lemma ChainRotatesAtFirstMaximum<T>(s: seq<T>, pos: T -> real)
    requires |s| > 1
    ensures exists k :: 0 <= k < |SortBy(s, pos)| && RotatedAtFirstMaximum(SortBy(s, pos), pos, Chain(s, pos), k)
  {
    var t := SortBy(s, pos);
    var k := MaxGapIndex(t, pos, |t|);
    MaxGapIndexIsFirstMaximum(t, pos, |t|);
    assert RotatedAtFirstMaximum(t, pos, Chain(s, pos), k);
  }

  lemma ChainPermutes<T>(s: seq<T>, pos: T -> real)
    requires |s| > 1
    ensures multiset(Chain(s, pos)) == multiset(s)
  {
    var t := SortBy(s, pos);
    var k := MaxGapIndex(t, pos, |t|);
    SortByCorrect(s, pos);
    assert Chain(s, pos) == t[k..] + t[..k];
    assert t == t[..k] + t[k..];
  }

  lemma ChainWrapGapIsLargest<T>(s: seq<T>, pos: T -> real)
    requires |s| > 1
    ensures var c := Chain(s, pos);
      forall i :: 1 <= i < |c| ==> VectorArc(pos(c[i - 1]), pos(c[i])) <= VectorArc(pos(c[|c| - 1]), pos(c[0]))
  {
    var t := SortBy(s, pos);
    var n := |t|;
    var k := MaxGapIndex(t, pos, n);
    var c := Chain(s, pos);
    MaxGapIndexIsFirstMaximum(t, pos, n);
    RotatedWrap(t, pos, k);
    forall i | 1 <= i < n
      ensures VectorArc(pos(c[i - 1]), pos(c[i])) <= VectorArc(pos(c[n - 1]), pos(c[0]))
    {
      RotatedGap(t, pos, k, i);
    }
  }

  lemma ChainUnrotatedOnTie<T>(s: seq<T>, pos: T -> real)
    requires |s| > 1
    ensures var t := SortBy(s, pos);
      (forall j :: 0 <= j < |t| ==> Gap(t, pos, j) <= Gap(t, pos, 0)) ==> Chain(s, pos) == t
  {
    var t := SortBy(s, pos);
    var k := MaxGapIndex(t, pos, |t|);
    MaxGapIndexIsFirstMaximum(t, pos, |t|);
    if forall j :: 0 <= j < |t| ==> Gap(t, pos, j) <= Gap(t, pos, 0) {
      assert t[0..] + t[..0] == t;
    }
  }

  /** A gap between neighbours of the rotated list is a gap of the original cycle. */
  lemma RotatedGap<T>(t: seq<T>, pos: T -> real, k: nat, i: nat)
    requires k < |t| && 1 <= i < |t|
    ensures var c := RotateLeft(t, k);
      VectorArc(pos(c[i - 1]), pos(c[i])) == Gap(t, pos, if i + k < |t| then i + k else i + k - |t|)
  {
    var n := |t|;
    var c := RotateLeft(t, k);
    if i + k < n {
      assert c[i] == t[i + k] && c[i - 1] == t[i + k - 1];
    } else if i + k == n {
      assert c[i] == t[0] && c[i - 1] == t[n - 1];
    } else {
      assert c[i] == t[i + k - n] && c[i - 1] == t[i + k - n - 1];
    }
  }

  /** The wrap gap of the rotated list is the gap that ends where the rotation starts. */
  lemma RotatedWrap<T>(t: seq<T>, pos: T -> real, k: nat)
    requires k < |t|
    ensures var c := RotateLeft(t, k);
      VectorArc(pos(c[|c| - 1]), pos(c[0])) == Gap(t, pos, k)
  {
  }

  /**
   * arrangeAsChain: sorts the array by position, finds the first largest gap
   * with a running maximum and rotates that gap to the wrap-around.
   */
  method ArrangeAsChain<T>(a: array<T>, pos: T -> real)
    modifies a
    ensures a[..] == Chain(old(a[..]), pos)
  {
    var n := a.Length;
    if n > 1 {
      ghost var original := a[..];
      var sorted := SortBy(a[..], pos);
      forall i | 0 <= i < n {
        a[i] := sorted[i];
      }
      assert a[..] == sorted;
      var maxDist := VectorArc(pos(a[n - 1]), pos(a[0]));
      var maxDistIndex := 0;
      for i := 1 to n
        invariant a[..] == sorted
        invariant maxDistIndex == MaxGapIndex(sorted, pos, i)
        invariant maxDist == Gap(sorted, pos, maxDistIndex)
      {
        var dist := VectorArc(pos(a[i - 1]), pos(a[i]));
        if dist > maxDist {
          maxDistIndex := i;
          maxDist := dist;
        }
      }
      var rotated := RotateLeft(a[..], maxDistIndex);
      forall i | 0 <= i < n {
        a[i] := rotated[i];
      }
      assert a[..] == rotated;
    }
  }

  /** The total forward arc from `first` to each of the points. */
  function SumArcsFrom(first: real, points: seq<real>): real
  {
    if points == [] then 0.0 else SumArcsFrom(first, points[..|points| - 1]) + VectorArc(first, points[|points| - 1])
  }

  /**
   * calculateAvg: the centroid of points on the circle, found by arranging
   * them as a chain and averaging the forward arcs from the first point;
   * there is no first point of an empty list.
   */
  function CalculateAvg(points: seq<real>): (r: Result<real>)
    ensures r.Err? <==> points == []
    ensures |points| == 1 ==> r == Ok(points[0])
    ensures |points| > 1 ==> r.Ok? && 0.0 <= r.value < CIRCLE
  {
    if |points| == 1 then Ok(points[0])
    else if points == [] then Err(NoSuchElement)
    else
      var chain := Chain(points, x => x);
      var first := chain[0];
      Ok(NormalizeCoordinate(first + SumArcsFrom(first, chain[1..]) / |chain| as real))
  }

  /** The centroid of 0° and 150° is 75°: the chain is already in order and the one arc is halved. */
  lemma CalculateAvgOfTwo()
    ensures CalculateAvg([0.0, 150.0]) == Ok(75.0)
  {
    var id := (x: real) => x;
    var t := SortBy([0.0, 150.0], id);
    assert [0.0, 150.0][..1] == [0.0];
    assert SortBy([0.0], id) == [0.0];
    assert t == [0.0, 150.0];
    assert MaxGapIndex(t, id, 2) == 0;
    assert Chain([0.0, 150.0], id) == t;
    assert t[1..] == [150.0];
    assert SumArcsFrom(0.0, [150.0]) == 150.0;
  }

  /**
   * The centroid of 210°, 150° and 300° is 220°: in ascending order the
   * largest gap is the wrap from 300° to 150°, so the chain starts at 150°
   * and the mean arc from it is 70°.
   */
  lemma CalculateAvgOfThree()
    ensures CalculateAvg([210.0, 150.0, 300.0]) == Ok(220.0)
  {
    var id := (x: real) => x;
    var s := [210.0, 150.0, 300.0];
    assert s[..1] == [210.0] && s[..2] == [210.0, 150.0];
    assert SortBy([210.0], id) == [210.0];
    assert [210.0][..0] == [];
    assert SortBy([210.0, 150.0], id) == [150.0, 210.0];
    var t := SortBy(s, id);
    assert t == [150.0, 210.0, 300.0];
    assert MaxGapIndex(t, id, 3) == 0;
    assert Chain(s, id) == t;
    assert t[1..] == [210.0, 300.0];
    assert [210.0, 300.0][..1] == [210.0];
    assert SumArcsFrom(150.0, [210.0, 300.0]) == 210.0;
  }
}
