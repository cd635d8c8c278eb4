/**
 * The twelve signs of the zodiac, each a 30° sector of the circle counted
 * from 0° Aries, with its astrological symbol.
 */
module Zodiac {
  import opened JavaLang
  import opened CelestialMechanics

  datatype ZodiacSign =
    | Aries | Taurus | Gemini | Cancer | Leo | Virgo
    | Libra | Scorpio | Sagittarius | Capricorn | Aquarius | Pisces

  /** The signs in declaration order, as `values()` lists them. */
  const Signs: seq<ZodiacSign> :=
    [Aries, Taurus, Gemini, Cancer, Leo, Virgo, Libra, Scorpio, Sagittarius, Capricorn, Aquarius, Pisces]

  /** The position of a sign in declaration order. */
  function Ordinal(z: ZodiacSign): (i: nat)
    ensures i < 12 && Signs[i] == z
  {
    match z
    case Aries => 0
    case Taurus => 1
    case Gemini => 2
    case Cancer => 3
    case Leo => 4
    case Virgo => 5
    case Libra => 6
    case Scorpio => 7
    case Sagittarius => 8
    case Capricorn => 9
    case Aquarius => 10
    case Pisces => 11
  }

  function Symbol(z: ZodiacSign): char
  {
    match z
    case Aries => '♈'
    case Taurus => '♉'
    case Gemini => '♊'
    case Cancer => '♋'
    case Leo => '♌'
    case Virgo => '♍'
    case Libra => '♎'
    case Scorpio => '♏'
    case Sagittarius => '♐'
    case Capricorn => '♑'
    case Aquarius => '♒'
    case Pisces => '♓'
  }

  /** getZodiumOf: the sign whose sector holds the normalised position. */
  function GetZodiumOf(p: real): ZodiacSign
  {
    Signs[Trunc(NormalizeCoordinate(p)) / 30]
  }

  /** zodiumIcon: the symbol of the sign of a position. */
  function ZodiumIcon(p: real): char
  {
    Symbol(GetZodiumOf(p))
  }

  /** The sign found for a position is the one whose 30° sector contains it. */
  lemma ZodiumOfSector(p: real)
    ensures var n, i := NormalizeCoordinate(p), Ordinal(GetZodiumOf(p));
      30.0 * i as real <= n < 30.0 * (i + 1) as real
  {
    var n := NormalizeCoordinate(p);
    var t := Trunc(n);
    var k := t / 30;
    assert Ordinal(Signs[k]) == k;
    assert 30 * k <= t < 30 * (k + 1);
  }

  /** A sign is determined by its sector: any position inside sector `i` gets sign `i`. */
  lemma SectorDeterminesSign(p: real, i: nat)
    requires i < 12
    requires 30.0 * i as real <= NormalizeCoordinate(p) < 30.0 * (i + 1) as real
    ensures GetZodiumOf(p) == Signs[i]
  {
    ZodiumOfSector(p);
  }

  /** Positions a whole number of turns apart fall in the same sign. */
  lemma ZodiumOfShift(p: real, k: int)
    ensures GetZodiumOf(p + CIRCLE * k as real) == GetZodiumOf(p)
  {
    NormalizeShift(p, k);
  }

  /** The first sector is Aries and the last Pisces. */
  lemma FirstAndLastSigns(p: real)
    ensures 0.0 <= p < 30.0 ==> GetZodiumOf(p) == Aries
    ensures 330.0 <= p < CIRCLE ==> GetZodiumOf(p) == Pisces
  {
    if 0.0 <= p < 30.0 {
      NormalizeInRange(p);
      SectorDeterminesSign(p, 0);
    }
    if 330.0 <= p < CIRCLE {
      NormalizeInRange(p);
      SectorDeterminesSign(p, 11);
    }
  }

  /** The icon names the sign: two positions show the same icon exactly when they are in the same sign. */
  lemma IconIdentifiesSign(p: real, q: real)
    ensures ZodiumIcon(p) == ZodiumIcon(q) <==> GetZodiumOf(p) == GetZodiumOf(q)
  {
  }
}
