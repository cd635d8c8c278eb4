/**
 * Astras (named points on the zodiac belonging to a chart), charts, multi-
 * charts and the chart-object union over the two, with the line format a
 * chart is stored in.
 */
module Charts {
  import opened Wrappers
  import opened JavaLang
  import opened Text
  import opened CelestialMechanics
  import opened Zodiac
  import Decorator

  // ---- coordinates as they are stored ----

  /** Degrees, minutes and seconds as degrees. */
  function Degrees(d: real, m: real, s: real): real
  {
    d + m / 60.0 + s / 3600.0
  }

  /**
   * Astra.fromData: one to three numbers are degrees, minutes and seconds;
   * four are a sign number from 1 to 12 followed by degrees, minutes and
   * seconds within the sign. The position is not yet normalised.
   */
  function CoordinateFromData(coors: seq<real>): Result<real>
  {
    if |coors| == 0 then Err(IllegalArgument)
    else if |coors| == 1 then Ok(coors[0])
    else if |coors| == 2 then Ok(coors[0] + coors[1] / 60.0)
    else if |coors| == 3 then Ok(Degrees(coors[0], coors[1], coors[2]))
    else if |coors| == 4 then
      if coors[0] > 12.0 || coors[0] < 1.0 then Err(IllegalArgument)
      else Ok((Trunc(coors[0] - 1.0) * 30) as real + Degrees(coors[1], coors[2], coors[3]))
    else Err(IllegalArgument)
  }

  /**
   * fromData fails, always with IllegalArgument, exactly for no numbers,
   * more than four, or four whose sign number is outside 1..12.
   */
  lemma FromDataErrors(coors: seq<real>)
    ensures CoordinateFromData(coors).Err? <==>
      |coors| == 0 || |coors| > 4 || (|coors| == 4 && (coors[0] < 1.0 || coors[0] > 12.0))
    ensures CoordinateFromData(coors).Err? ==> CoordinateFromData(coors).error == IllegalArgument
  {
  }

  /**
   * Four numbers place the astra in the given sign: with a whole sign number
   * `n` and an offset inside the sign, the astra lands in the `n`-th sign.
   */
  lemma SignNumberSelectsSign(coors: seq<real>, n: int)
    requires |coors| == 4 && 1 <= n <= 12 && coors[0] == n as real
    requires 0.0 <= Degrees(coors[1], coors[2], coors[3]) < 30.0
    ensures CoordinateFromData(coors).Ok?
    ensures GetZodiumOf(CoordinateFromData(coors).value) == Signs[n - 1]
  {
    var p := CoordinateFromData(coors).value;
    assert Trunc(coors[0] - 1.0) == n - 1;
    assert 30.0 * (n - 1) as real <= p < 30.0 * n as real;
    NormalizeInRange(p);
    SectorDeterminesSign(p, n - 1);
  }

  /** A number parser applied to every token, or None when one does not parse. */
  function ParseAll(tokens: seq<string>, parse: string -> Option<real>): (r: Option<seq<real>>)
    ensures r.Some? ==> |r.value| == |tokens|
  {
    if forall k :: 0 <= k < |tokens| ==> parse(tokens[k]).Some? then
      Some(seq(|tokens|, k requires 0 <= k < |tokens| && parse(tokens[k]).Some? => parse(tokens[k]).value))
    else None
  }

  /**
   * Astra.readFromString: the trimmed line split at spaces is a name and
   * numbers; a number that does not parse is a FileFormat error, a wrong
   * count of numbers the IllegalArgument of fromData. The result is the name
   * and the normalised position.
   */
  function ReadAstraLine(input: string): Result<(string, real)>
  {
    ReadAstraTokens(Split(Trim(input), ' '))
  }

  /** The name and the position from the pieces of an astra line. */
  function ReadAstraTokens(elements: seq<string>): Result<(string, real)>
  {
    if |elements| == 0 then Err(FileFormat)
    else
      match ParseAll(elements[1..], ParseDouble)
      case None => Err(FileFormat)
      case Some(coors) =>
        match CoordinateFromData(coors)
        case Err(e) => Err(e)
        case Ok(p) => Ok((elements[0], NormalizeCoordinate(p)))
  }

  /** Astra.getString: "name degrees minutes seconds" and a line feed. */
  function AstraLine(name: string, position: real): string
  {
    var c := DegreesToCoors(position);
    name + " " + IntToString(c[0]) + " " + IntToString(c[1]) + " " + IntToString(c[2]) + "\n"
  }

  /**
   * Reading back a stored astra line gives the name again and the position
   * to within half an arc-second, provided the name has no space and does
   * not start with a character that trimming removes.
   */
  lemma ReadBackAstraLine(name: string, position: real)
    requires name != [] && ' ' !in name && !IsTrimmable(name[0])
    requires 0.0 <= position < CIRCLE
    ensures ReadAstraLine(AstraLine(name, position)).Ok?
    ensures ReadAstraLine(AstraLine(name, position)).value.0 == name
    ensures Arc(ReadAstraLine(AstraLine(name, position)).value.1, position) <= 1.0 / 7200.0
  {
    var c := DegreesToCoors(position);
    CoorsAreRoundedPosition(position);
    ReadBackDigits(AstraLine(name, position), name, c[0], c[1], c[2]);
    StoredArc(position);
  }

  /** A line of a name and three digit strings reads back as that name and those degrees, minutes and seconds. */
  lemma ReadBackDigits(line: string, name: string, c0: nat, c1: nat, c2: nat)
    requires name != [] && ' ' !in name && !IsTrimmable(name[0])
    requires line == name + " " + IntToString(c0) + " " + IntToString(c1) + " " + IntToString(c2) + "\n"
    ensures ReadAstraLine(line) == Ok((name, NormalizeCoordinate(Degrees(c0 as real, c1 as real, c2 as real))))
  {
    var d, m, s := NatToString(c0), NatToString(c1), NatToString(c2);
    AstraLineTokens(name, d, m, s);
    ParseDoubleOfNat(c0);
    ParseDoubleOfNat(c1);
    ParseDoubleOfNat(c2);
    ReadTokens(name, d, m, s, c0 as real, c1 as real, c2 as real);
  }

  /** The stored degrees, minutes and seconds lie within half an arc-second of the position. */
  lemma StoredArc(p: real)
    requires 0.0 <= p < CIRCLE
    ensures var c := DegreesToCoors(p);
      Arc(NormalizeCoordinate(Degrees(c[0] as real, c[1] as real, c[2] as real)), p) <= 1.0 / 7200.0
  {
    CoorsAsDegrees(p);
    CoorsAreRoundedPosition(p);
    NormalizeInRange(p);
    WithinHalfSecond(SecondsOf(p), p);
  }

  lemma ReadTokens(name: string, d: string, m: string, s: string, a: real, b: real, c: real)
    requires ParseDouble(d) == Some(a) && ParseDouble(m) == Some(b) && ParseDouble(s) == Some(c)
    ensures ReadAstraTokens([name, d, m, s]) == Ok((name, NormalizeCoordinate(Degrees(a, b, c))))
  {
    assert [name, d, m, s][1..] == [d, m, s];
    ParseThree(d, m, s, ParseDouble, a, b, c);
  }

  lemma WithinHalfSecond(seconds: int, p: real)
    requires 0 <= seconds <= 1296000 && 0.0 <= p < CIRCLE
    requires -0.5 <= seconds as real - p * 3600.0 <= 0.5
    ensures Arc(NormalizeCoordinate(seconds as real / 3600.0), p) <= 1.0 / 7200.0
  {
    RestoredWithinHalfSecond(seconds as real / 3600.0, p);
  }

  /** The three stored numbers, read as degrees, minutes and seconds, are the rounded arc-seconds in degrees. */
  lemma CoorsAsDegrees(p: real)
    ensures var c := DegreesToCoors(p);
      Degrees(c[0] as real, c[1] as real, c[2] as real) == SecondsOf(p) as real / 3600.0
  {
    var c := DegreesToCoors(p);
    CoorsAreRoundedPosition(p);
    SecondsAsDegrees(c[0], c[1], c[2], SecondsOf(p));
  }

  lemma SecondsAsDegrees(d: int, m: int, s: int, total: int)
    requires d * 3600 + m * 60 + s == total
    ensures Degrees(d as real, m as real, s as real) == total as real / 3600.0
  {
  }

  lemma ParseThree(d: string, m: string, s: string, parse: string -> Option<real>, a: real, b: real, c: real)
    requires parse(d) == Some(a) && parse(m) == Some(b) && parse(s) == Some(c)
    ensures ParseAll([d, m, s], parse) == Some([a, b, c])
  {
    var ts := [d, m, s];
    assert forall k :: 0 <= k < |ts| ==> parse(ts[k]).Some?;
    var r := ParseAll(ts, parse).value;
    assert r[0] == a && r[1] == b && r[2] == c;
    assert r == [a, b, c];
  }

  /** A stored line, trimmed and split at spaces, is its name and its three numbers. */
  lemma AstraLineTokens(name: string, d: string, m: string, s: string)
    requires name != [] && ' ' !in name && !IsTrimmable(name[0])
    requires IsDigits(d) && IsDigits(m) && IsDigits(s)
    ensures Split(Trim(name + " " + d + " " + m + " " + s + "\n"), ' ') == [name, d, m, s]
  {
    var body := name + " " + d + " " + m + " " + s;
    NoSpaceInDigits(d);
    NoSpaceInDigits(m);
    NoSpaceInDigits(s);
    assert body[|body| - 1] == s[|s| - 1];
    assert IsDigit(s[|s| - 1]);
    TrimDropsTail(body, "\n");
    var parts := [name, d, m, s];
    assert body == Join(" ", parts) by {
      assert Join(" ", [s]) == s;
      assert Join(" ", [m, s]) == m + " " + s;
      assert Join(" ", [d, m, s]) == d + " " + (m + " " + s);
    }
    SplitJoin(' ', parts);
  }

  lemma NoSpaceInDigits(s: string)
    requires IsDigits(s)
    ensures s != [] && ' ' !in s
  {
  }

  lemma RestoredWithinHalfSecond(x: real, p: real)
    requires 0.0 <= p < CIRCLE && 0.0 <= x <= CIRCLE
    requires -1.0 / 7200.0 <= x - p <= 1.0 / 7200.0
    ensures Arc(NormalizeCoordinate(x), p) <= 1.0 / 7200.0
  {
    NormalizeInRange(p);
    if x < CIRCLE {
      NormalizeInRange(x);
    } else {
      assert NormalizeCoordinate(x) == 0.0;
      NormalizeInRange(0.0);
    }
  }

  // ---- lists keyed by name ----

  /** The keys of a list, in order. */
  function Keys<T>(list: seq<T>, key: T -> string): (r: seq<string>)
    ensures |r| == |list| && forall k :: 0 <= k < |list| ==> r[k] == key(list[k])
  {
    seq(|list|, k requires 0 <= k < |list| => key(list[k]))
  }

  /** No key occurs twice. */
  predicate UniqueKeys<T>(list: seq<T>, key: T -> string)
  {
    forall i, j :: 0 <= i < j < |list| ==> key(list[i]) != key(list[j])
  }

  /** The element of the first position holding key `k`, if any. */
  function FindByKey<T>(list: seq<T>, k: string, key: T -> string): (r: Option<T>)
    ensures r.Some? ==> r.value in list && key(r.value) == k
    ensures r.None? <==> forall i :: 0 <= i < |list| ==> key(list[i]) != k
  {
    var i := IndexOf(Keys(list, key), k);
    if i < 0 then None else Some(list[i])
  }

  /**
   * Chart.addAstra on the list: the first element with the same key is
   * replaced in place, and when there is none the element is appended.
   */
  function Placed<T>(list: seq<T>, x: T, key: T -> string): seq<T>
  {
    var i := IndexOf(Keys(list, key), key(x));
    if i < 0 then list + [x] else list[i := x]
  }

  /** The elements placed one after another. */
  function PlaceAll<T>(list: seq<T>, xs: seq<T>, key: T -> string): seq<T>
  {
    if xs == [] then list else Placed(PlaceAll(list, xs[..|xs| - 1], key), xs[|xs| - 1], key)
  }

  /**
   * Placing behaves as a map update: the new element is found under its key
   * and every other key finds what it found before. A key already present
   * keeps its position and the length; a new key is appended at the end.
   * Keys that were unique stay unique.
   */
  lemma PlacedIsUpdate<T>(list: seq<T>, x: T, key: T -> string)
    ensures FindByKey(Placed(list, x, key), key(x), key) == Some(x)
    ensures forall k :: k != key(x) ==> FindByKey(Placed(list, x, key), k, key) == FindByKey(list, k, key)
    ensures key(x) in Keys(list, key) ==>
      var i := IndexOf(Keys(list, key), key(x));
      |Placed(list, x, key)| == |list| && Placed(list, x, key)[i] == x
      && forall j :: 0 <= j < |list| && j != i ==> Placed(list, x, key)[j] == list[j]
    ensures key(x) !in Keys(list, key) ==> Placed(list, x, key) == list + [x]
    ensures UniqueKeys(list, key) ==> UniqueKeys(Placed(list, x, key), key)
  {
    var ks := Keys(list, key);
    var r := Placed(list, x, key);
    var i := IndexOf(ks, key(x));
    if i < 0 {
      assert Keys(r, key) == ks + [key(x)];
      forall k
        ensures FindByKey(r, k, key) == if k == key(x) then Some(x) else FindByKey(list, k, key)
      {
        IndexOfAppend(ks, key(x), k);
      }
    } else {
      assert Keys(r, key) == ks;
    }
  }

  // ---- the chart classes ----

  /** The name of an astra, its key in a chart. */
  function AstraName(a: Astra): string
  {
    a.name
  }

  /** The name of a read astra line, its key among read lines. */
  function ReadingName(r: (string, real)): string
  {
    r.0
  }

  /** Astra: a named point with a position in [0, 360) and the chart it belongs to. */
  class Astra {
    const name: string
    var heaven: Chart?
    var position: real

    /** The one-number constructor: the position normalised. */
    constructor (name: string, degree: real)
      ensures this.name == name && heaven == null
      ensures position == NormalizeCoordinate(degree) && 0.0 <= position < CIRCLE
    {
      this.name := name;
      heaven := null;
      position := NormalizeCoordinate(degree);
    }

    /** The degrees-and-minutes constructor. */
    constructor WithMinutes(name: string, degree: real, minute: real)
      ensures this.name == name && heaven == null
      ensures position == NormalizeCoordinate(degree + minute / 60.0) && 0.0 <= position < CIRCLE
    {
      this.name := name;
      heaven := null;
      position := NormalizeCoordinate(degree + minute / 60.0);
    }

    /** The degrees, minutes and seconds constructor. */
    constructor WithSeconds(name: string, degree: real, minute: real, second: real)
      ensures this.name == name && heaven == null
      ensures position == NormalizeCoordinate(degree + minute / 60.0 + second / 3600.0) && 0.0 <= position < CIRCLE
    {
      this.name := name;
      heaven := null;
      position := NormalizeCoordinate(degree + minute / 60.0 + second / 3600.0);
    }

    /** fromData: an astra at the coordinate the numbers describe, or the IllegalArgument it raises. */
    static method FromData(name: string, coors: seq<real>) returns (r: Result<Astra>)
      ensures r.Ok? <==> CoordinateFromData(coors).Ok?
      ensures r.Err? ==> r.error == CoordinateFromData(coors).error
      ensures r.Ok? ==> (fresh(r.value) && r.value.name == name && r.value.heaven == null
        && r.value.position == NormalizeCoordinate(CoordinateFromData(coors).value))
    {
      if |coors| == 0 {
        return Err(IllegalArgument);
      } else if |coors| == 1 {
        var a := new Astra(name, coors[0]);
        return Ok(a);
      } else if |coors| == 2 {
        var a := new Astra.WithMinutes(name, coors[0], coors[1]);
        return Ok(a);
      } else if |coors| == 3 {
        var a := new Astra.WithSeconds(name, coors[0], coors[1], coors[2]);
        return Ok(a);
      } else if |coors| == 4 {
        if coors[0] > 12.0 || coors[0] < 1.0 {
          return Err(IllegalArgument);
        }
        var signNumber := Trunc(coors[0] - 1.0);
        var degrees := (signNumber * 30) as real + coors[1];
        var a := new Astra.WithSeconds(name, degrees, coors[2], coors[3]);
        return Ok(a);
      } else {
        return Err(IllegalArgument);
      }
    }

    /** readFromString: a new astra from a stored line, or the exception the line raises. */
    static method ReadFromString(input: string) returns (r: Result<Astra>)
      ensures r.Ok? <==> ReadAstraLine(input).Ok?
      ensures r.Err? ==> r.error == ReadAstraLine(input).error
      ensures r.Ok? ==> (fresh(r.value) && r.value.heaven == null
        && (r.value.name, r.value.position) == ReadAstraLine(input).value)
    {
      var elements := Split(Trim(input), ' ');
      if |elements| == 0 {
        return Err(FileFormat);
      }
      var parsed := ParseAll(elements[1..], ParseDouble);
      if parsed.None? {
        return Err(FileFormat);
      }
      r := FromData(elements[0], parsed.value);
    }

    /** setZodiacPosition: the position normalised. */
    method SetZodiacPosition(p: real)
      modifies this
      ensures position == NormalizeCoordinate(p) && 0.0 <= position < CIRCLE
      ensures heaven == old(heaven)
    {
      position := NormalizeCoordinate(p);
    }

    /** advanceCoordinateBy: moves the astra along the zodiac and returns the same astra. */
    method AdvanceCoordinateBy(change: real) returns (self: Astra)
      modifies this
      ensures self == this
      ensures position == NormalizeCoordinate(old(position) + change)
      ensures heaven == old(heaven)
    {
      SetZodiacPosition(position + change);
      self := this;
    }

    /** isTheSame: the other astra has this name and is in the very same chart. */
    predicate IsTheSame(another: Astra?)
      reads this, another
    {
      another != null && SameAstra(PointOf(this), PointOf(another))
    }

    /** getString: the stored line of this astra. */
    function GetString(): string
      reads this
    {
      AstraLine(name, position)
    }
  }

  /**
   * isTheSame is an equivalence on astras: every astra is the same as
   * itself, the test is symmetric and transitive, and it ignores the
   * position; nothing is the same as null.
   */
  lemma IsTheSameEquivalence(a: Astra, b: Astra, c: Astra)
    ensures a.IsTheSame(a) && !a.IsTheSame(null)
    ensures a.IsTheSame(b) <==> b.IsTheSame(a)
    ensures a.IsTheSame(b) && b.IsTheSame(c) ==> a.IsTheSame(c)
    ensures a.IsTheSame(b) <==> a.name == b.name && a.heaven == b.heaven
  {
  }

  /** ofSameHeaven: both astras belong to the same chart object. */
  predicate OfSameHeaven(a: Astra, b: Astra)
    reads a, b
  {
    a.heaven == b.heaven
  }

  /**
   * Advancing an astra by some arc and then back by the same arc puts it
   * where it was.
   */
  lemma AdvanceAndBack(p: real, change: real)
    requires 0.0 <= p < CIRCLE
    ensures NormalizeCoordinate(NormalizeCoordinate(p + change) + -change) == p
  {
    NormalizeIsResidue(p + change);
    var f := ((p + change) / CIRCLE).Floor;
    assert NormalizeCoordinate(p + change) + -change == p + CIRCLE * (-f) as real;
    NormalizeShift(p, -f);
    NormalizeInRange(p);
  }

  /** What an astra is at one moment: its name, its chart and its position. */
  datatype Point = Point(name: string, heaven: Chart?, position: real)

  function PointOf(a: Astra): Point
    reads a
  {
    Point(a.name, a.heaven, a.position)
  }

  /** Two points are the same astra when they have the same name in the same chart; positions may differ. */
  predicate SameAstra(p: Point, q: Point)
  {
    p.name == q.name && p.heaven == q.heaven
  }

  /** areConjuncted: the same chart and an arc within the primal orb. */
  predicate AreConjuncted(a: Point, b: Point, primalOrb: real)
  {
    a.heaven == b.heaven && Arc(a.position, b.position) <= primalOrb
  }

  /** conjuncting: an arc within the primal orb, halved between charts when the half-orb setting is on. */
  predicate Conjuncting(a: Point, b: Point, primalOrb: real, halfOrbsForDoubles: bool)
  {
    Arc(a.position, b.position) <= if a.heaven != b.heaven && halfOrbsForDoubles then primalOrb / 2.0 else primalOrb
  }

  /**
   * Both conjunction tests are symmetric; astras conjuncted in one chart are
   * conjuncting, and astras of one chart conjuncting are conjuncted.
   */
  lemma ConjunctionTests(a: Point, b: Point, primalOrb: real, halfOrbsForDoubles: bool)
    ensures AreConjuncted(a, b, primalOrb) <==> AreConjuncted(b, a, primalOrb)
    ensures Conjuncting(a, b, primalOrb, halfOrbsForDoubles) <==> Conjuncting(b, a, primalOrb, halfOrbsForDoubles)
    ensures a.heaven == b.heaven ==>
      (AreConjuncted(a, b, primalOrb) <==> Conjuncting(a, b, primalOrb, halfOrbsForDoubles))
    ensures a.heaven != b.heaven ==> !AreConjuncted(a, b, primalOrb)
  {
    ArcSymmetric(a.position, b.position);
  }

  /** The read form of astras: name and position. */
  function Readings(list: seq<Astra>): (r: seq<(string, real)>)
    reads list
    ensures |r| == |list| && forall k :: 0 <= k < |list| ==> r[k] == (list[k].name, list[k].position)
  {
    seq(|list|, k requires 0 <= k < |list| reads list => (list[k].name, list[k].position))
  }

  /** A chart: a name and its astras, unique by name. */
  class Chart {
    const name: string
    var astras: seq<Astra>

    constructor (name: string)
      ensures this.name == name && astras == []
    {
      this.name := name;
      astras := [];
    }

    /** The constructor with astras: each one added in turn. */
    constructor WithAstras(name: string, astraList: seq<Astra>)
      modifies set a | a in astraList
      ensures this.name == name && astras == PlaceAll([], astraList, AstraName)
      ensures forall a :: a in astraList ==> a.heaven == this && a.position == old(a.position)
    {
      this.name := name;
      astras := [];
      new;
      for k := 0 to |astraList|
        invariant astras == PlaceAll([], astraList[..k], AstraName)
        invariant forall a :: a in astraList[..k] ==> a.heaven == this
        invariant forall a :: a in astraList ==> a.position == old(a.position)
      {
        assert astraList[..k + 1][..k] == astraList[..k];
        AddAstra(astraList[k]);
      }
      assert astraList[..|astraList|] == astraList;
    }

    /**
     * addAstra: the astra now belongs to this chart; it replaces the astra of
     * the same name in place, or is appended.
     */
    method AddAstra(astra: Astra)
      modifies this, astra
      ensures astra.heaven == this && astra.position == old(astra.position)
      ensures astras == Placed(old(astras), astra, AstraName)
    {
      astra.heaven := this;
      ghost var names := Keys(astras, AstraName);
      for i := 0 to |astras|
        invariant astras == old(astras)
        invariant astra.name !in names[..i]
      {
        if astras[i].name == astra.name {
          IndexOfIs(names, astra.name, i);
          astras := astras[i := astra];
          return;
        }
        assert names[..i + 1] == names[..i] + [names[i]];
      }
      assert names[..|astras|] == names;
      astras := astras + [astra];
    }

    /** getAstra: the astra with this name, or null. */
    function GetAstra(name: string): (r: Astra?)
      reads this
      ensures r != null ==> r in astras && r.name == name
      ensures r == null <==> forall k :: 0 <= k < |astras| ==> astras[k].name != name
    {
      match FindByKey(astras, name, AstraName)
      case None => null
      case Some(a) => a
    }

    /** getString: a "#name" line, the astras' lines, and an empty line. */
    function GetString(): string
      reads this, astras
    {
      "#" + name + "\n" + Concat(seq(|astras|, k requires 0 <= k < |astras| reads this, astras => astras[k].GetString())) + "\n"
    }

    /** readFromString: a new chart from its text, or the exception the text raises. */
    static method ReadFromString(input: string) returns (r: Result<Chart>)
      ensures r.Ok? <==> ReadChartText(input).Ok?
      ensures r.Err? ==> r.error == ReadChartText(input).error
      ensures r.Ok? ==> (fresh(r.value) && r.value.name == ReadChartText(input).value.0
        && Readings(r.value.astras) == PlaceAll([], ReadChartText(input).value.1, ReadingName))
    {
      var lines := Lines(input);
      if |lines| == 0 {
        return Err(IllegalArgument);
      }
      var made := ReadAstras(lines[1..]);
      if made.Err? {
        return Err(made.error);
      }
      var astras := made.value;
      ghost var read := Readings(astras);
      assert forall a :: a in astras ==> fresh(a);
      var chart := new Chart.WithAstras(lines[0], astras);
      assert Readings(astras) == read;
      ReadingsPlaceAll(astras, |astras|);
      assert astras[..|astras|] == astras;
      assert read[..|astras|] == read;
      return Ok(chart);
    }

    /** The stream of astras read from the astra lines of a chart text, in order. */
    static method ReadAstras(body: seq<string>) returns (r: Result<seq<Astra>>)
      ensures r.Ok? <==> ReadAstraLines(body).Ok?
      ensures r.Err? ==> r.error == ReadAstraLines(body).error
      ensures r.Ok? ==> (Readings(r.value) == ReadAstraLines(body).value
        && forall a :: a in r.value ==> fresh(a))
    {
      var made: seq<Astra> := [];
      ghost var read: seq<(string, real)> := [];
      for k := 0 to |body|
        invariant ReadAstraLines(body[..k]) == Ok(read)
        invariant ReadAs(made, read)
        invariant forall a :: a in made ==> fresh(a)
      {
        var next;
        next, read := ReadNext(body, k, made, read);
        if next.Err? {
          ReadErrorPersists(body, k + 1);
          return Err(next.error);
        }
        made := next.value;
      }
      assert body[..|body|] == body;
      assert Readings(made) == read;
      return Ok(made);
    }

    /** One step of the stream: line `k` skipped, or read as a new astra appended to `made`. */
    static method ReadNext(lines: seq<string>, k: nat, made: seq<Astra>, ghost read: seq<(string, real)>)
      returns (r: Result<seq<Astra>>, ghost after: seq<(string, real)>)
      requires k < |lines| && ReadAstraLines(lines[..k]) == Ok(read) && ReadAs(made, read)
      ensures r.Err? ==> ReadAstraLines(lines[..k + 1]) == Err(r.error)
      ensures r.Ok? ==> ReadAstraLines(lines[..k + 1]) == Ok(after) && ReadAs(r.value, after)
      ensures r.Ok? ==> forall a :: a in r.value ==> a in made || fresh(a)
    {
      ReadStep(lines, k, read);
      var line := lines[k];
      if !IsAstraLine(line) {
        return Ok(made), read;
      }
      r, after := ReadOne(line, made, read);
    }

    /** An astra line read and its astra appended to `made`, or the error met. */
    static method ReadOne(line: string, made: seq<Astra>, ghost read: seq<(string, real)>)
      returns (r: Result<seq<Astra>>, ghost after: seq<(string, real)>)
      requires ReadAs(made, read)
      ensures r.Err? ==> ReadAstraLine(line) == Err(r.error)
      ensures r.Ok? ==> ReadAstraLine(line).Ok? && after == read + [ReadAstraLine(line).value] && ReadAs(r.value, after)
      ensures r.Ok? ==> forall a :: a in r.value ==> a in made || fresh(a)
    {
      var a := Astra.ReadFromString(line);
      if a.Err? {
        return Err(a.error), read;
      }
      assert ReadAs(made, read);
      ReadAsAppend(made, read, a.value, ReadAstraLine(line).value);
      r, after := Ok(made + [a.value]), read + [ReadAstraLine(line).value];
    }
  }

  lemma ReadAsAppend(made: seq<Astra>, read: seq<(string, real)>, a: Astra, reading: (string, real))
    requires ReadAs(made, read) && (a.name, a.position) == reading
    ensures ReadAs(made + [a], read + [reading])
  {
  }

  /** The astras carry the readings, one by one. */
  ghost predicate ReadAs(made: seq<Astra>, read: seq<(string, real)>)
    reads made
  {
    |made| == |read| && forall i :: 0 <= i < |made| ==> (made[i].name, made[i].position) == read[i]
  }

  /** The lines of a chart text that hold astras: not blank and not a `//` comment. */
  predicate IsAstraLine(line: string)
  {
    !IsBlank(line) && !StartsWith(line, "//")
  }

  /** The astra lines read in order, or the first error met. */
  function ReadAstraLines(lines: seq<string>): Result<seq<(string, real)>>
  {
    if lines == [] then Ok([])
    else
      match ReadAstraLines(lines[..|lines| - 1])
      case Err(e) => Err(e)
      case Ok(done) =>
        var line := lines[|lines| - 1];
        if !IsAstraLine(line) then Ok(done)
        else
          match ReadAstraLine(line)
          case Err(e) => Err(e)
          case Ok(a) => Ok(done + [a])
  }

  /** One more line read: skipped, failing, or appended. */
  lemma ReadStep(lines: seq<string>, k: nat, read: seq<(string, real)>)
    requires k < |lines| && ReadAstraLines(lines[..k]) == Ok(read)
    ensures ReadAstraLines(lines[..k + 1]) ==
      if !IsAstraLine(lines[k]) then Ok(read)
      else match ReadAstraLine(lines[k])
        case Err(e) => Err(e)
        case Ok(a) => Ok(read + [a])
  {
    assert lines[..k + 1][..k] == lines[..k];
  }

  lemma {:induction false} ReadErrorPersists(lines: seq<string>, n: nat)
    requires 1 <= n <= |lines|
    requires ReadAstraLines(lines[..n]).Err?
    ensures ReadAstraLines(lines) == ReadAstraLines(lines[..n])
    decreases |lines| - n
  {
    if n < |lines| {
      assert lines[..n + 1][..n] == lines[..n];
      ReadErrorPersists(lines, n + 1);
    } else {
      assert lines[..n] == lines;
    }
  }

  /**
   * Chart.readFromString: the first line is the name, and the later astra
   * lines are read in order; empty text is an IllegalArgument.
   */
  function ReadChartText(input: string): Result<(string, seq<(string, real)>)>
  {
    var lines := Lines(input);
    if |lines| == 0 then Err(IllegalArgument)
    else
      match ReadAstraLines(lines[1..])
      case Err(e) => Err(e)
      case Ok(read) => Ok((lines[0], read))
  }

  /** Placing astras and then reading them is reading them and then placing the readings. */
  lemma {:induction false} ReadingsPlaceAll(made: seq<Astra>, n: nat)
    requires n <= |made|
    ensures Readings(PlaceAll([], made[..n], AstraName)) == PlaceAll([], Readings(made)[..n], ReadingName)
  {
    if n > 0 {
      ReadingsPlaceAll(made, n - 1);
      assert made[..n][..n - 1] == made[..n - 1];
      assert Readings(made)[..n][..n - 1] == Readings(made)[..n - 1];
      ReadingsPlaced(PlaceAll([], made[..n - 1], AstraName), made[n - 1]);
    } else {
      assert made[..0] == [];
      assert Readings(made)[..0] == [];
    }
  }

  lemma ReadingsPlaced(list: seq<Astra>, a: Astra)
    ensures Readings(Placed(list, a, AstraName)) == Placed(Readings(list), (a.name, a.position), ReadingName)
  {
    assert Keys(Readings(list), ReadingName) == Keys(list, AstraName);
  }

  /** The stored text of a chart read as lines: the "#name" line, each astra's line, and an empty line. */
  lemma ChartTextLines(chart: Chart)
    requires '\n' !in chart.name && '\r' !in chart.name
    requires forall k :: 0 <= k < |chart.astras| ==> '\n' !in chart.astras[k].name && '\r' !in chart.astras[k].name
    ensures Lines(chart.GetString()) ==
      ["#" + chart.name]
      + seq(|chart.astras|, k requires 0 <= k < |chart.astras| reads chart, chart.astras =>
          var line := chart.astras[k].GetString(); line[..|line| - 1])
      + [""]
  {
    var n := |chart.astras|;
    var full := seq(n, k requires 0 <= k < |chart.astras| reads chart, chart.astras => chart.astras[k].GetString());
    var bare := seq(n, k requires 0 <= k < |chart.astras| reads chart, chart.astras =>
      var line := chart.astras[k].GetString(); line[..|line| - 1]);
    forall k | 0 <= k < n
      ensures full[k] == bare[k] + "\n"
      ensures '\n' !in bare[k] && '\r' !in bare[k]
    {
      AstraLineEnds(chart.astras[k].name, chart.astras[k].position);
    }
    ConcatIsTerminated(full, bare);
    HeadedText("#" + chart.name, full, bare);
    var all := ["#" + chart.name] + bare + [""];
    assert chart.GetString() == Terminated(all);
    forall k | 0 <= k < |all|
      ensures '\n' !in all[k] && '\r' !in all[k]
    {
      if 1 <= k <= n {
        assert all[k] == bare[k - 1];
      } else if k == 0 {
        assert all[k] == "#" + chart.name;
      } else {
        assert all[k] == "";
      }
    }
    LinesOfTerminated(all);
  }

  /** A header line, terminated lines and a closing line feed are the terminated lines with an empty last one. */
  lemma HeadedText(header: string, full: seq<string>, bare: seq<string>)
    requires Concat(full) == Terminated(bare)
    ensures header + "\n" + Concat(full) + "\n" == Terminated([header] + bare + [""])
  {
    TerminatedAppend([header] + bare, "");
    TerminatedConcat([header], bare);
    assert Terminated([header]) == header + "\n";
  }

  /** An astra line ends in its only line feed and holds no carriage return. */
  lemma AstraLineEnds(name: string, position: real)
    requires '\n' !in name && '\r' !in name
    ensures var line := AstraLine(name, position);
      |line| > 0 && line == line[..|line| - 1] + "\n"
      && '\n' !in line[..|line| - 1] && '\r' !in line[..|line| - 1]
  {
    var c := DegreesToCoors(position);
    CoorsAreRoundedPosition(position);
    var d, m, s := NatToString(c[0]), NatToString(c[1]), NatToString(c[2]);
    DigitsHaveNoTerminator(d);
    DigitsHaveNoTerminator(m);
    DigitsHaveNoTerminator(s);
    var bare := name + " " + d + " " + m + " " + s;
    assert AstraLine(name, position) == bare + "\n";
    assert (bare + "\n")[..|bare|] == bare;
  }

  lemma DigitsHaveNoTerminator(s: string)
    requires IsDigits(s)
    ensures '\n' !in s && '\r' !in s
  {
  }

  lemma {:induction false} ConcatIsTerminated(full: seq<string>, bare: seq<string>)
    requires |full| == |bare| && forall k :: 0 <= k < |full| ==> full[k] == bare[k] + "\n"
    ensures Concat(full) == Terminated(bare)
    decreases |full|
  {
    if full != [] {
      var n := |full|;
      ConcatIsTerminated(full[..n - 1], bare[..n - 1]);
      assert bare == bare[..n - 1] + [bare[n - 1]];
      TerminatedAppend(bare[..n - 1], bare[n - 1]);
    }
  }

  // ---- multi-charts and chart objects ----

  /** A multi-chart: a name and its component charts. */
  class MultiChart {
    const name: string
    const moments: seq<Chart>

    constructor (name: string, moments: seq<Chart>)
      ensures this.name == name && this.moments == moments
    {
      this.name := name;
      this.moments := moments;
    }

    /** The named constructor over chart objects: their charts flattened in order. */
    constructor Of(name: string, charts: seq<ChartObject>)
      ensures this.name == name && moments == Flatten(charts)
    {
      this.name := name;
      moments := Flatten(charts);
    }

    /** The unnamed constructor: titled after its components. */
    constructor Synastry(charts: seq<ChartObject>)
      ensures moments == Flatten(charts) && name == SynastryTitle(Flatten(charts))
    {
      name := SynastryTitle(Flatten(charts));
      moments := Flatten(charts);
    }

    /** getCaption: a header line, then one "letter: name" line per component. */
    function GetCaption(): string
    {
      MULTI_HEADER + "\n" + Join("\n", CaptionEntries(moments))
    }
  }

  const MULTI_HEADER: string := "Множественная карта:"

  /** The caption lines of components: each one's letter and name. */
  function CaptionEntries(moments: seq<Chart>): (r: seq<string>)
    ensures |r| == |moments|
    ensures forall k :: 0 <= k < |moments| ==> r[k] == LetterFor(k) + ": " + moments[k].name
  {
    seq(|moments|, k requires 0 <= k < |moments| => LetterFor(k) + ": " + moments[k].name)
  }

  /** "Синастрия: " and the component names joined with " + ". */
  function SynastryTitle(moments: seq<Chart>): string
  {
    "Синастрия: " + Join(" + ", seq(|moments|, k requires 0 <= k < |moments| => moments[k].name))
  }

  const ALPHABET: string := "АБВГДЕЁЖЗИЙКЛМНОПРСТУФХЦЧШЩЫЭЮЯ"

  /** letterFor: the letter `i mod 31`, followed by `i div 31` when that is positive. */
  function LetterFor(i: nat): string
  {
    [ALPHABET[i % |ALPHABET|]] + (if i / |ALPHABET| > 0 then IntToString(i / |ALPHABET|) else "")
  }

  /** Different components get different letters. */
  lemma LettersAreDistinct(i: nat, j: nat)
    requires LetterFor(i) == LetterFor(j)
    ensures i == j
  {
    assert LetterFor(i)[0] == LetterFor(j)[0];
    AlphabetIsDistinct(i % 31, j % 31);
    OctaveOfLetter(i);
    OctaveOfLetter(j);
  }

  /** What follows the letter names the octave `i div 31`, or is empty for the first one. */
  lemma OctaveOfLetter(i: nat)
    ensures var rest := LetterFor(i)[1..];
      (rest == [] <==> i / 31 == 0) && (rest != [] ==> DigitsValue(rest) == i / 31)
  {
    var rest := LetterFor(i)[1..];
    if i / 31 > 0 {
      assert rest == NatToString(i / 31);
      DigitsRoundTrip(i / 31);
    } else {
      assert rest == [];
    }
  }

  /** An order on letters in which the alphabet is ascending: Ё sits between Е and Ж. */
  function LetterKey(c: char): int
  {
    if c == 'Ё' then 2 * ('Е' as int) + 1 else 2 * (c as int)
  }

  /** No letter occurs twice in the alphabet. */
  lemma AlphabetIsDistinct(a: nat, b: nat)
    requires a < 31 && b < 31 && ALPHABET[a] == ALPHABET[b]
    ensures a == b
  {
    if a < b {
      KeysAscend(a, b);
    } else if b < a {
      KeysAscend(b, a);
    }
  }

  lemma {:induction false} KeysAscend(a: nat, b: nat)
    requires a < b < 31
    ensures LetterKey(ALPHABET[a]) < LetterKey(ALPHABET[b])
    decreases b - a
  {
    KeyStep(b - 1);
    if a < b - 1 {
      KeysAscend(a, b - 1);
    }
  }

  lemma KeyStep(k: nat)
    requires k < 30
    ensures LetterKey(ALPHABET[k]) < LetterKey(ALPHABET[k + 1])
  {
    if k < 10 {
      KeyStepFrom0(k);
    } else if k < 20 {
      KeyStepFrom10(k);
    } else {
      KeyStepFrom20(k);
    }
  }

  lemma KeyStepFrom0(k: nat)
    requires 0 <= k < 10
    ensures LetterKey(ALPHABET[k]) < LetterKey(ALPHABET[k + 1])
  {
    if k == 0 {
      assert ALPHABET[0] == 'А' && ALPHABET[1] == 'Б';
    } else if k == 1 {
      assert ALPHABET[1] == 'Б' && ALPHABET[2] == 'В';
    } else if k == 2 {
      assert ALPHABET[2] == 'В' && ALPHABET[3] == 'Г';
    } else if k == 3 {
      assert ALPHABET[3] == 'Г' && ALPHABET[4] == 'Д';
    } else if k == 4 {
      assert ALPHABET[4] == 'Д' && ALPHABET[5] == 'Е';
    } else if k == 5 {
      assert ALPHABET[5] == 'Е' && ALPHABET[6] == 'Ё';
    } else if k == 6 {
      assert ALPHABET[6] == 'Ё' && ALPHABET[7] == 'Ж';
    } else if k == 7 {
      assert ALPHABET[7] == 'Ж' && ALPHABET[8] == 'З';
    } else if k == 8 {
      assert ALPHABET[8] == 'З' && ALPHABET[9] == 'И';
    } else {
      assert ALPHABET[9] == 'И' && ALPHABET[10] == 'Й';
    }
  }

  lemma KeyStepFrom10(k: nat)
    requires 10 <= k < 20
    ensures LetterKey(ALPHABET[k]) < LetterKey(ALPHABET[k + 1])
  {
    if k == 10 {
      assert ALPHABET[10] == 'Й' && ALPHABET[11] == 'К';
    } else if k == 11 {
      assert ALPHABET[11] == 'К' && ALPHABET[12] == 'Л';
    } else if k == 12 {
      assert ALPHABET[12] == 'Л' && ALPHABET[13] == 'М';
    } else if k == 13 {
      assert ALPHABET[13] == 'М' && ALPHABET[14] == 'Н';
    } else if k == 14 {
      assert ALPHABET[14] == 'Н' && ALPHABET[15] == 'О';
    } else if k == 15 {
      assert ALPHABET[15] == 'О' && ALPHABET[16] == 'П';
    } else if k == 16 {
      assert ALPHABET[16] == 'П' && ALPHABET[17] == 'Р';
    } else if k == 17 {
      assert ALPHABET[17] == 'Р' && ALPHABET[18] == 'С';
    } else if k == 18 {
      assert ALPHABET[18] == 'С' && ALPHABET[19] == 'Т';
    } else {
      assert ALPHABET[19] == 'Т' && ALPHABET[20] == 'У';
    }
  }

  lemma KeyStepFrom20(k: nat)
    requires 20 <= k < 30
    ensures LetterKey(ALPHABET[k]) < LetterKey(ALPHABET[k + 1])
  {
    if k == 20 {
      assert ALPHABET[20] == 'У' && ALPHABET[21] == 'Ф';
    } else if k == 21 {
      assert ALPHABET[21] == 'Ф' && ALPHABET[22] == 'Х';
    } else if k == 22 {
      assert ALPHABET[22] == 'Х' && ALPHABET[23] == 'Ц';
    } else if k == 23 {
      assert ALPHABET[23] == 'Ц' && ALPHABET[24] == 'Ч';
    } else if k == 24 {
      assert ALPHABET[24] == 'Ч' && ALPHABET[25] == 'Ш';
    } else if k == 25 {
      assert ALPHABET[25] == 'Ш' && ALPHABET[26] == 'Щ';
    } else if k == 26 {
      assert ALPHABET[26] == 'Щ' && ALPHABET[27] == 'Ы';
    } else if k == 27 {
      assert ALPHABET[27] == 'Ы' && ALPHABET[28] == 'Э';
    } else if k == 28 {
      assert ALPHABET[28] == 'Э' && ALPHABET[29] == 'Ю';
    } else {
      assert ALPHABET[29] == 'Ю' && ALPHABET[30] == 'Я';
    }
  }

  /** The chart-object union: a single chart or a multi-chart. */
  datatype ChartObject = Single(chart: Chart) | Multi(multi: MultiChart)
  {
    function Name(): string
    {
      if Single? then chart.name else multi.name
    }

    /** getData: the charts this object is made of. */
    function GetData(): seq<Chart>
    {
      if Single? then [chart] else multi.moments
    }

    /** getDimension: 1 for a chart, the number of components of a multi-chart. */
    function Dimension(): int
    {
      if Single? then 1 else |multi.moments|
    }

    /**
     * getShortenedName: the name when it fits in `limit`, otherwise its
     * first `limit - 1` characters and an ellipsis.
     */
    function GetShortenedName(limit: int): (r: string)
      requires |Name()| <= limit || limit >= 1
      ensures |Name()| <= limit ==> r == Name()
      ensures |Name()| > limit ==> |r| == limit && r[..limit - 1] == Name()[..limit - 1] && r[limit - 1] == '…'
    {
      if |Name()| <= limit then Name() else Name()[..limit - 1] + "…"
    }

    /** getCaption: a chart's name framed with asterisks; a multi-chart's letter list. */
    function GetCaption(): string
    {
      if Single? then Decorator.FramedText(chart.name, 30, 80, Decorator.Uniform('*')) else multi.GetCaption()
    }
  }

  /** The dimension is the number of charts the data holds. */
  lemma DimensionIsDataLength(o: ChartObject)
    ensures o.Dimension() == |o.GetData()|
  {
  }

  /** The charts of several chart objects, in order. */
  function Flatten(charts: seq<ChartObject>): seq<Chart>
  {
    if charts == [] then [] else Flatten(charts[..|charts| - 1]) + charts[|charts| - 1].GetData()
  }

  function SumDimensions(charts: seq<ChartObject>): int
  {
    if charts == [] then 0 else SumDimensions(charts[..|charts| - 1]) + charts[|charts| - 1].Dimension()
  }

  /**
   * Flattening keeps every component and adds none: its length is the sum
   * of the dimensions, and a chart is in it exactly when it is in the data
   * of one of the objects.
   */
  lemma {:induction false} FlattenKeepsComponents(charts: seq<ChartObject>)
    ensures |Flatten(charts)| == SumDimensions(charts)
    ensures forall c :: c in Flatten(charts) ==> exists i :: 0 <= i < |charts| && c in charts[i].GetData()
    ensures forall c, i :: 0 <= i < |charts| && c in charts[i].GetData() ==> c in Flatten(charts)
  {
    if charts != [] {
      FlattenKeepsComponents(charts[..|charts| - 1]);
      FlattenOnlyComponents(charts);
      FlattenAllComponents(charts);
    }
  }

  /** The induction step of FlattenKeepsComponents for charts found in the flattening. */
  lemma FlattenOnlyComponents(charts: seq<ChartObject>)
    requires charts != []
    requires var init := charts[..|charts| - 1];
      forall c :: c in Flatten(init) ==> exists i :: 0 <= i < |init| && c in init[i].GetData()
    ensures forall c :: c in Flatten(charts) ==> exists i :: 0 <= i < |charts| && c in charts[i].GetData()
  {
    var n := |charts|;
    var init := charts[..n - 1];
    forall c | c in Flatten(charts)
      ensures exists i :: 0 <= i < n && c in charts[i].GetData()
    {
      if c in Flatten(init) {
        var i :| 0 <= i < |init| && c in init[i].GetData();
        assert charts[i] == init[i];
      } else {
        assert c in charts[n - 1].GetData();
      }
    }
  }

  /** The induction step of FlattenKeepsComponents for the charts of each object. */
  lemma FlattenAllComponents(charts: seq<ChartObject>)
    requires charts != []
    requires var init := charts[..|charts| - 1];
      forall c, i :: 0 <= i < |init| && c in init[i].GetData() ==> c in Flatten(init)
    ensures forall c, i :: 0 <= i < |charts| && c in charts[i].GetData() ==> c in Flatten(charts)
  {
    var n := |charts|;
    var init := charts[..n - 1];
    forall c, i | 0 <= i < n && c in charts[i].GetData()
      ensures c in Flatten(charts)
    {
      if i < n - 1 {
        assert init[i] == charts[i];
        assert c in Flatten(init);
      }
    }
  }

  /**
   * A multi-chart caption read as lines: the header, then one line per
   * component with its letter and name.
   */
  lemma CaptionLines(m: MultiChart)
    requires |m.moments| >= 1
    requires forall k :: 0 <= k < |m.moments| ==> '\n' !in m.moments[k].name && '\r' !in m.moments[k].name
    ensures Lines(m.GetCaption()) == [MULTI_HEADER] + CaptionEntries(m.moments)
  {
    var entries := CaptionEntries(m.moments);
    var all := [MULTI_HEADER] + entries;
    forall k | 0 <= k < |entries|
      ensures '\n' !in entries[k] && '\r' !in entries[k]
    {
      LetterHasNoTerminator(k);
    }
    HeaderJoin(MULTI_HEADER, entries);
    LinesOfJoin(all);
  }

  lemma LetterHasNoTerminator(i: nat)
    ensures '\n' !in LetterFor(i) && '\r' !in LetterFor(i)
  {
    if i / 31 > 0 {
      DigitsHaveNoTerminator(NatToString(i / 31));
    }
  }

  /** A header line joined before non-empty lines without terminators. */
  lemma HeaderJoin(header: string, entries: seq<string>)
    requires entries != [] && entries[|entries| - 1] != []
    requires '\n' !in header && '\r' !in header
    requires forall k :: 0 <= k < |entries| ==> '\n' !in entries[k] && '\r' !in entries[k]
    ensures var all := [header] + entries;
      Join("\n", all) == header + "\n" + Join("\n", entries)
      && all[|all| - 1] != []
      && forall k :: 0 <= k < |all| ==> '\n' !in all[k] && '\r' !in all[k]
  {
    var all := [header] + entries;
    assert all[1..] == entries;
  }
}
