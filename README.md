# astrowidjaspring — a verified model of the harmonic core

This project models, in Dafny, the computational core of astrowidjaspring, a
command-line program for harmonic astrology. A chart is a named set of astras
(points on the zodiac, in degrees of ecliptic longitude). Charts are kept in
named chart lists and saved as albums in `.daw` files. For one or more charts
the program builds a resonance matrix: every pair of astras gets a resonance
batch that says at which harmonics their arc is an aspect and how strong that
aspect is. At a given harmonic, the astras whose pairs resonate form the
connected components of a resonance graph. These components are the
patterns. The program runs the pattern search for every combination of the
charts and every harmonic up to the edge harmonic, and it gathers the results
in a pattern table.

The model covers:

- `CelestialMechanics`, `Zodiac`, `Aspects`: positions taken modulo 360°,
  arcs, the degree/minute/second and sign notation, and the aspect records.
- `Charts`, `ChartLists`: astras, charts, multicharts and the chart-object
  union, with the line format of a chart. The chart list is a class that keeps
  its list of charts, the parallel list of names and the modification counter.
- `AstroMatrices`, `ResonanceGraphs`, `Combinations`: the resonance matrix
  (a class), the pattern search over its resonance graph, and the chart
  combinations it analyses.
- `Patterns`, `PatternAnalyses`, `PatternTables`, `HarmonicServices`:
  patterns with their clearance accumulators and clusters, the per-combination
  analyses, the pattern table and the service's matrix cache.
- `Configuration`: the settings map, its defaults, the settings-file parser
  and the typed getters.
- `DawFiles`, `Library`: the `.daw` reader and album summary, and the
  library's in-memory album cards and lookups.
- `Controller`: the command-line helpers, namely yes/no answers, chart lookup
  by number, name or prefix, command arguments and the silent merge.
- `Decorator`: text frames and the side-by-side joining of tables.
- `JavaLang`, `Text`, `Lists`, `Sorting`, `Wrappers`: Java's integer and
  rounding conventions, the `String` and `List` operations the code relies
  on, the stable `List.sort`, and `Option`/`Result` values. These stand for
  nulls and for exceptions, which are named by their Java class.

Mutable Java objects are Dafny classes whose fields the methods update: the
chart list, the resonance matrix, patterns, pattern analyses, the pattern
table, the harmonic service and the library. Each method is proved against a
specification function, and lemmas prove the properties of those functions.
Pure utility code is written as functions and lemmas. A resonance batch
(the harmonic arithmetic of an arc) is an oracle passed to the matrix: it
says, for each harmonic, whether the pair resonates at it
(hasHarmonicResonance) and whether that harmonic is exact for the pair
(hasExactHarmonic). Settings values and
repository answers are passed as parameters.

## Model

| member | source | states |
|---|---|---|
| `CelestialMechanics.NormalizeCoordinate` | src/main/java/ru/swetophor/astrowidjaspring/utils/CelestialMechanics.java:79-82 | the normalised position always lies in [0, 360) |
| `CelestialMechanics.NormalizeIsResidue` | src/main/java/ru/swetophor/astrowidjaspring/utils/CelestialMechanics.java:79-82 | the `%`-then-add-360 fix-up equals the Euclidean residue modulo 360, so the result is congruent to the input |
| `CelestialMechanics.NormalizeShift` | src/main/java/ru/swetophor/astrowidjaspring/utils/CelestialMechanics.java:79-82 | `p` and `p + 360k` normalise to the same point for every integer `k` |
| `CelestialMechanics.NormalizeInRange` | src/main/java/ru/swetophor/astrowidjaspring/utils/CelestialMechanics.java:79-82 | a position already in [0, 360) is left unchanged |
| `CelestialMechanics.NormalizeSecondTurn` | src/main/java/ru/swetophor/astrowidjaspring/utils/CelestialMechanics.java:79-82 | a position in [360, 720) loses exactly one turn |
| `CelestialMechanics.Arc` | src/main/java/ru/swetophor/astrowidjaspring/utils/CelestialMechanics.java:35-40 | the arc between two positions lies in [0, 180] |
| `CelestialMechanics.ArcIsShorterWay` | src/main/java/ru/swetophor/astrowidjaspring/utils/CelestialMechanics.java:35-40 | the arc is symmetric and is the shorter of the two forward arcs between the normalised positions |
| `CelestialMechanics.ArcShift` | src/main/java/ru/swetophor/astrowidjaspring/utils/CelestialMechanics.java:35-40 | adding whole turns to a position does not change the arc |
| `CelestialMechanics.VectorArc` | src/main/java/ru/swetophor/astrowidjaspring/utils/CelestialMechanics.java:59-62 | getVectorArc: the difference, plus a full turn when negative, so for normalised positions it lies in [0, 360) |
| `CelestialMechanics.VectorArcLeadsTo` | src/main/java/ru/swetophor/astrowidjaspring/utils/CelestialMechanics.java:59-62 | getVectorArc: for normalised positions the forward arc lies in [0, 360) and travelling it from `a` lands on `b` |
| `CelestialMechanics.ArcExamples` | src/main/java/ru/swetophor/astrowidjaspring/utils/CelestialMechanics.java:35-62 | the test expectations: 0/60 gives 60, 300/60 gives 120 across 0°, equal points give 0; forward 0→60 is 60, 60→0 is 300, 300→60 is 120 |
| `CelestialMechanics.NormalizeArc` | src/main/java/ru/swetophor/astrowidjaspring/utils/CelestialMechanics.java:69-71 | the distance between the two ends of any arc lies in [0, 180] |
| `CelestialMechanics.NormalizeArcOfShortArc` | src/main/java/ru/swetophor/astrowidjaspring/utils/CelestialMechanics.java:69-71 | an arc already in [0, 180] is its own normal form |
| `CelestialMechanics.ArcForHarmonic` | src/main/java/ru/swetophor/astrowidjaspring/utils/CelestialMechanics.java:189-191 | the distance in the chart of harmonic `h` lies in [0, 180] |
| `CelestialMechanics.ArcForHarmonicProperties` | src/main/java/ru/swetophor/astrowidjaspring/utils/CelestialMechanics.java:189-191 | the harmonic distance is symmetric, and at harmonic 1 it equals the plain arc |
| `CelestialMechanics.Strength` | src/main/java/ru/swetophor/astrowidjaspring/utils/CelestialMechanics.java:203-212 | calculateStrength: non-negative exactly within the orb, at most 100 for any clearance ≥ 0, at least −100 for clearances up to 180 |
| `CelestialMechanics.StrengthScale` | src/main/java/ru/swetophor/astrowidjaspring/utils/CelestialMechanics.java:203-212 | calculateStrength: strength is 100 at clearance 0, 0 at the orb, negative beyond the orb, −100 at 180, and within [−100, 100] for clearances in [0, 180] |
| `CelestialMechanics.StrengthMonotone` | src/main/java/ru/swetophor/astrowidjaspring/utils/CelestialMechanics.java:207-212 | calculateStrength: strength never increases as the clearance grows |
| `CelestialMechanics.IsAheadMeansForward` | src/main/java/ru/swetophor/astrowidjaspring/utils/CelestialMechanics.java:160-163 | for normalised positions `isAhead` holds iff the forward arc is shorter than 180 |
| `CelestialMechanics.FindMedian` | src/main/java/ru/swetophor/astrowidjaspring/utils/CelestialMechanics.java:93-100 | findMedian: the median is a normalised position in [0, 360) |
| `CelestialMechanics.MedianIsEquidistant` | src/main/java/ru/swetophor/astrowidjaspring/utils/CelestialMechanics.java:93-100 | findMedian: the median of two normalised positions lies half their arc away from each |
| `CelestialMechanics.CoorsAreRoundedPosition` | src/main/java/ru/swetophor/astrowidjaspring/utils/CelestialMechanics.java:122-129 | degreesToCoors: `[d, m, s]` has `m` and `s` in 0..59, `d` in 0..360, and 3600d + 60m + s is the normalised position rounded to the arc-second (within half a second) |
| `CelestialMechanics.SignAndCoorsSplitDegrees` | src/main/java/ru/swetophor/astrowidjaspring/utils/CelestialMechanics.java:137-145 | degreesToSignAndCoors: the sign is `d / 30 + 1` and the degree `d mod 30`, with minutes and seconds copied through |
| `CelestialMechanics.ThirteenthSign` | src/main/java/ru/swetophor/astrowidjaspring/utils/CelestialMechanics.java:124-140 | as written, 359.9999° rounds up to 360°0'0" and is reported as sign 13 |
| `CelestialMechanics.WrappedSignInRange` | src/main/java/ru/swetophor/astrowidjaspring/utils/CelestialMechanics.java:132-145 | with the rounded count taken modulo a full turn the sign is always 1..12 and agrees with the original below 360° |
| `CelestialMechanics.MaxGapIndexIsFirstMaximum` | src/main/java/ru/swetophor/astrowidjaspring/utils/CelestialMechanics.java:253-262 | the running scan finds a largest gap, and every earlier gap (the wrap gap first) is strictly smaller |
| `CelestialMechanics.ChainProperties` | src/main/java/ru/swetophor/astrowidjaspring/utils/CelestialMechanics.java:249-265 | the arrangement is a permutation, a rotation of the ascending order at the first strictly largest gap; the wrap gap is at least every neighbour gap; when the wrap gap ties the maximum nothing rotates |
| `CelestialMechanics.ArrangeAsChain` | src/main/java/ru/swetophor/astrowidjaspring/utils/CelestialMechanics.java:249-265 | the in-place sort, running-maximum scan and rotation leave the array equal to `Chain` of its old contents; arrays of size ≤ 1 are untouched |
| `CelestialMechanics.CalculateAvg` | src/main/java/ru/swetophor/astrowidjaspring/utils/CelestialMechanics.java:288-300 | one point gives its own position; more points give a normalised position; an empty argument list fails (`getFirst` of an empty list) |
| `CelestialMechanics.CalculateAvgOfTwo` | src/main/java/ru/swetophor/astrowidjaspring/utils/CelestialMechanics.java:288-300 | the test expectation: the centroid of 0° and 150° is 75° |
| `CelestialMechanics.CalculateAvgOfThree` | src/main/java/ru/swetophor/astrowidjaspring/utils/CelestialMechanics.java:288-300 | the test expectation: the centroid of 210°, 150° and 300° is 220° |
| `Aspects.Depth` | src/main/java/ru/swetophor/astrowidjaspring/model/astro/Aspect.java:77 | the depth is the floor of orb/clearance as a 32-bit int, saturating to the largest int at clearance 0 |
| `Aspects.NewAspect` | src/main/java/ru/swetophor/astrowidjaspring/model/astro/Aspect.java:72-78 | the constructor keeps numeric and clearance; strength is 100 and depth saturated for an exact aspect, in [0, 100] within the orb and in [−100, 0) beyond it |
| `Aspects.DepthCountsMultiples` | src/main/java/ru/swetophor/astrowidjaspring/model/astro/Aspect.java:54-61 | depth ≥ k exactly when k times the clearance still fits in the orb |
| `Aspects.OwnHarmonic` | src/main/java/ru/swetophor/astrowidjaspring/model/astro/Aspect.java:152-154 | an aspect resonates in its own harmonic iff its depth is at least 1 |
| `Aspects.NoDepthNoResonance` | src/main/java/ru/swetophor/astrowidjaspring/model/astro/Aspect.java:152-154 | an aspect of depth 0 resonates in no harmonic ≥ 1 |
| `Aspects.ResonanceAtMultiples` | src/main/java/ru/swetophor/astrowidjaspring/model/astro/Aspect.java:152-154 | `hasResonance(h)` iff h is a multiple of the numeric and h / numeric ≤ depth |
| `Aspects.ResonanceWithinOrb` | src/main/java/ru/swetophor/astrowidjaspring/model/astro/Aspect.java:72-78 | a constructed aspect resonates at harmonic k·numeric iff k times its clearance is within the orb |
| `Aspects.TrinePersistence` | src/main/java/ru/swetophor/astrowidjaspring/model/astro/Aspect.java:140-154 | a trine persists at harmonic 6 iff depth ≥ 2 and at harmonic 12 iff depth ≥ 4 |
| `Aspects.LevelAndRatingShareBuckets` | src/main/java/ru/swetophor/astrowidjaspring/model/astro/Aspect.java:110-138 | getStrengthLevel and getStrengthRating: the level word and the star rating each depend only on the depth bucket (≤1, 2, 3–5, 6–12, 13–24, >24) and distinguish all six buckets |
| `Zodiac.Ordinal` | src/main/java/ru/swetophor/astrowidjaspring/model/astro/ZodiacSign.java:12-23 | every sign sits at its declaration position among the twelve |
| `Zodiac.ZodiumOfSector` | src/main/java/ru/swetophor/astrowidjaspring/model/astro/ZodiacSign.java:35-37 | getZodiumOf: the sign found is the one whose 30° sector holds the normalised position |
| `Zodiac.SectorDeterminesSign` | src/main/java/ru/swetophor/astrowidjaspring/model/astro/ZodiacSign.java:35-37 | any position in sector i gets the i-th sign |
| `Zodiac.ZodiumOfShift` | src/main/java/ru/swetophor/astrowidjaspring/model/astro/ZodiacSign.java:35-37 | `p` and `p + 360k` are in the same sign |
| `Zodiac.FirstAndLastSigns` | src/main/java/ru/swetophor/astrowidjaspring/model/astro/ZodiacSign.java:12-37 | [0, 30) is Aries and [330, 360) is Pisces |
| `Zodiac.IconIdentifiesSign` | src/main/java/ru/swetophor/astrowidjaspring/model/astro/ZodiacSign.java:31-33 | zodiumIcon: two positions show the same icon iff they are in the same sign |
| `Charts.FromDataErrors` | src/main/java/ru/swetophor/astrowidjaspring/model/astro/Astra.java:84-98 | `fromData` fails, always with IllegalArgument, exactly for no numbers, more than four, or four whose sign number is outside [1, 12] |
| `Charts.SignNumberSelectsSign` | src/main/java/ru/swetophor/astrowidjaspring/model/astro/Astra.java:90-96 | four numbers with a whole sign number n and an in-sign offset below 30° place the astra in the n-th sign |
| `Charts.Astra.constructor` | src/main/java/ru/swetophor/astrowidjaspring/model/astro/Astra.java:67-70 | the position is stored normalised into [0, 360), with no chart yet |
| `Charts.Astra.WithMinutes` | src/main/java/ru/swetophor/astrowidjaspring/model/astro/Astra.java:57-59 | the position is degree + minute/60, normalised |
| `Charts.Astra.WithSeconds` | src/main/java/ru/swetophor/astrowidjaspring/model/astro/Astra.java:46-48 | the position is degree + minute/60 + second/3600, normalised |
| `Charts.Astra.FromData` | src/main/java/ru/swetophor/astrowidjaspring/model/astro/Astra.java:84-98 | a fresh astra at the normalised coordinate the 1–4 numbers describe, or the IllegalArgument the count or sign number raises |
| `Charts.Astra.ReadFromString` | src/main/java/ru/swetophor/astrowidjaspring/model/astro/Astra.java:112-129 | the first space-separated token of the trimmed line is the name and the rest are numbers; a token that does not parse is a FileFormat error, a wrong count the IllegalArgument of `fromData` |
| `Charts.ReadBackDigits` | src/main/java/ru/swetophor/astrowidjaspring/model/astro/Astra.java:112-129 | a line of a name and three digit strings reads back as that name at those degrees, minutes and seconds |
| `Charts.ReadBackAstraLine` | src/main/java/ru/swetophor/astrowidjaspring/model/astro/Astra.java:211-218 | reading back the stored line of an astra whose name has no space restores the name and the position to within half an arc-second |
| `Charts.StoredArc` | src/main/java/ru/swetophor/astrowidjaspring/model/astro/Astra.java:211-218 | the stored degrees, minutes and seconds lie within half an arc-second of the position |
| `Charts.Astra.SetZodiacPosition` | src/main/java/ru/swetophor/astrowidjaspring/model/astro/Astra.java:149-151 | the new position is the normalised argument; the chart reference is unchanged |
| `Charts.Astra.AdvanceCoordinateBy` | src/main/java/ru/swetophor/astrowidjaspring/model/astro/Astra.java:159-162 | the position becomes normalize(old + change) and the same object is returned |
| `Charts.AdvanceAndBack` | src/main/java/ru/swetophor/astrowidjaspring/model/astro/Astra.java:159-162 | advancing by an arc and then by its negation restores a normalised position |
| `Charts.ConjunctionTests` | src/main/java/ru/swetophor/astrowidjaspring/utils/CelestialMechanics.java:223-240 | areConjuncted and conjuncting: both conjunction tests are symmetric; astras of different charts are never `areConjuncted`; within one chart the two tests agree |
| `Charts.IsTheSameEquivalence` | src/main/java/ru/swetophor/astrowidjaspring/model/astro/Astra.java:240-243 | isTheSame is reflexive, symmetric and transitive, false for null, and holds exactly for the same name in the same chart whatever the positions |
| `Charts.FindByKey` | src/main/java/ru/swetophor/astrowidjaspring/model/chart/Chart.java:102-107 | the element found carries the key and is in the list; nothing is found iff no element has the key |
| `Charts.PlacedIsUpdate` | src/main/java/ru/swetophor/astrowidjaspring/model/chart/Chart.java:92-100 | placing an astra acts as a map update: an existing name is replaced at its index with every other entry and the length kept, a new name is appended, and name uniqueness is preserved |
| `Charts.Chart.constructor` | src/main/java/ru/swetophor/astrowidjaspring/model/chart/Chart.java:25-27 | a new chart has its name and no astras |
| `Charts.Chart.WithAstras` | src/main/java/ru/swetophor/astrowidjaspring/model/chart/Chart.java:20-23 | the astras are the given ones placed one after another, and each now belongs to this chart |
| `Charts.Chart.AddAstra` | src/main/java/ru/swetophor/astrowidjaspring/model/chart/Chart.java:92-100 | the astra's chart becomes this chart, and the list becomes the placed list (replace in place, else append) |
| `Charts.Chart.GetAstra` | src/main/java/ru/swetophor/astrowidjaspring/model/chart/Chart.java:102-107 | the astra of that name, or null exactly when no astra has the name |
| `Charts.Chart.ReadFromString` | src/main/java/ru/swetophor/astrowidjaspring/model/chart/Chart.java:37-49 | empty text is an IllegalArgument; the first line is the name; later blank and `//` lines are skipped and the others are read as astras and placed in order; the first bad line's error is raised |
| `Charts.Chart.ReadAstras` | src/main/java/ru/swetophor/astrowidjaspring/model/chart/Chart.java:42-47 | the astra lines become fresh astras, in order, or the first error |
| `Charts.Chart.ReadNext` | src/main/java/ru/swetophor/astrowidjaspring/model/chart/Chart.java:42-47 | one line of the stream: a skipped line keeps the astras, an astra line adds one fresh astra with its reading, and a bad line fails with the reader's error |
| `Charts.Chart.ReadOne` | src/main/java/ru/swetophor/astrowidjaspring/model/chart/Chart.java:42-47 | an astra line read by Astra.readFromString: on success one fresh astra carrying the line's name and position is appended, otherwise the reader's error comes back |
| `Charts.ChartTextLines` | src/main/java/ru/swetophor/astrowidjaspring/model/chart/Chart.java:65-72 | the stored text of a chart is a "#name" line, one line per astra in order, and an empty line |
| `Charts.MultiChart.constructor` | src/main/java/ru/swetophor/astrowidjaspring/model/chart/MultiChart.java:11-14 | the multi-chart keeps its name and components |
| `Charts.MultiChart.Of` | src/main/java/ru/swetophor/astrowidjaspring/model/chart/MultiChart.java:16-21 | the components are the chart objects' data flattened in argument order |
| `Charts.MultiChart.Synastry` | src/main/java/ru/swetophor/astrowidjaspring/model/chart/MultiChart.java:23-29 | the unnamed form flattens its arguments and is titled "Синастрия: " and the component names joined with " + " |
| `Charts.FlattenKeepsComponents` | src/main/java/ru/swetophor/astrowidjaspring/model/chart/MultiChart.java:16-21 | flattening has as many charts as the dimensions add up to, and a chart is in it iff it is in the data of one of the objects |
| `Charts.DimensionIsDataLength` | src/main/java/ru/swetophor/astrowidjaspring/model/chart/MultiChart.java:31-57 | a chart object's dimension is the length of its data (1 for a chart, the components for a multi-chart) |
| `Charts.CaptionEntries` | src/main/java/ru/swetophor/astrowidjaspring/model/chart/MultiChart.java:59-67 | one "letter: name" entry per component, in order |
| `Charts.CaptionLines` | src/main/java/ru/swetophor/astrowidjaspring/model/chart/MultiChart.java:59-67 | the caption read as lines is the header and then the entries |
| `Charts.LettersAreDistinct` | src/main/java/ru/swetophor/astrowidjaspring/model/chart/MultiChart.java:69-76 | letterFor: different component indices get different letters |
| `Charts.OctaveOfLetter` | src/main/java/ru/swetophor/astrowidjaspring/model/chart/MultiChart.java:69-76 | what follows the letter is empty for i < 31 and otherwise the decimal digits of i div 31 |
| `Charts.AlphabetIsDistinct` | src/main/java/ru/swetophor/astrowidjaspring/model/chart/MultiChart.java:70 | no letter occurs twice in the 31-letter alphabet |
| `Charts.ChartObject.GetShortenedName` | src/main/java/ru/swetophor/astrowidjaspring/model/chart/ChartObject.java:29-33 | a name of length ≤ limit is returned unchanged; a longer one becomes exactly `limit` characters, its first limit−1 and "…"; limit ≥ 1 is required only for a longer name |
| `ChartLists.AddedAllAppends` | src/main/java/ru/swetophor/astrowidjaspring/model/chart/ChartList.java:195-200 | addAll only appends, and only elements of the incoming collection |
| `ChartLists.AddedAllKeepsUnique` | src/main/java/ru/swetophor/astrowidjaspring/model/chart/ChartList.java:174-200 | with the collision branch taken as cancelled, add and addAll never introduce a second chart of an existing name |
| `ChartLists.AddedAllCovers` | src/main/java/ru/swetophor/astrowidjaspring/model/chart/ChartList.java:174-200 | after addAll every incoming chart's name is on the list, added or already present |
| `ChartLists.ChartList.constructor` | src/main/java/ru/swetophor/astrowidjaspring/model/chart/ChartList.java:41-42 | a new list is empty, in sync, under the default name, with a zero counter |
| `ChartLists.ChartList.Named` | src/main/java/ru/swetophor/astrowidjaspring/model/chart/ChartList.java:44-47 | a null list name keeps the default one |
| `ChartLists.ChartList.Of` | src/main/java/ru/swetophor/astrowidjaspring/model/chart/ChartList.java:49-57 | an empty list followed by addAll of the given charts |
| `ChartLists.ChartList.Size` | src/main/java/ru/swetophor/astrowidjaspring/model/chart/ChartList.java:136-138 | the size is the number of slots |
| `ChartLists.ChartList.Get` | src/main/java/ru/swetophor/astrowidjaspring/model/chart/ChartList.java:410-414 | the slot at i, or null outside [0, size) |
| `ChartLists.ChartList.Contains` | src/main/java/ru/swetophor/astrowidjaspring/model/chart/ChartList.java:433-435 | the name list holds the name iff some slot holds a chart of that name |
| `ChartLists.ChartList.GetByName` | src/main/java/ru/swetophor/astrowidjaspring/model/chart/ChartList.java:423-425 | the first chart with that name, or null when there is none |
| `ChartLists.ChartList.FindChart` | src/main/java/ru/swetophor/astrowidjaspring/model/chart/ChartList.java:486-508 | a blank query fails with ChartNotFound; an all-digit query succeeds iff it parses to a position 1..size and then gives the chart at that position; any other query succeeds iff it is an exact listed name and then gives that chart |
| `ChartLists.FindChartByPosition` | src/main/java/ru/swetophor/astrowidjaspring/model/chart/ChartList.java:492-496 | the decimal digits of k select the k-th chart |
| `ChartLists.FindChartOfDigits` | src/main/java/ru/swetophor/astrowidjaspring/model/chart/ChartList.java:486-508 | an all-digit query gives the chart at the position it parses to, or ChartNotFound |
| `ChartLists.FindChartLeadingZero` | src/main/java/ru/swetophor/astrowidjaspring/model/chart/ChartList.java:486-508 | a position written with a leading zero, as in "007", finds the same chart as without it |
| `ChartLists.FindChartByName` | src/main/java/ru/swetophor/astrowidjaspring/model/chart/ChartList.java:503-504 | a listed name that is neither blank nor a number finds its own chart |
| `ChartLists.ChartList.AddItem` | src/main/java/ru/swetophor/astrowidjaspring/model/chart/ChartList.java:394-401 | the chart and its name are appended at the end, the counter moves by one, and the lists stay in sync |
| `ChartLists.ChartList.Add` | src/main/java/ru/swetophor/astrowidjaspring/model/chart/ChartList.java:174-187 | null appends a null slot; a known name changes nothing (collision cancelled); a new name is appended; the result says whether the list grew |
| `ChartLists.ChartList.AddAll` | src/main/java/ru/swetophor/astrowidjaspring/model/chart/ChartList.java:195-200 | false for null, otherwise add on every element in order |
| `ChartLists.ChartList.Substitute` | src/main/java/ru/swetophor/astrowidjaspring/model/chart/ChartList.java:214-217 | clear, then addAll of the other list's charts |
| `ChartLists.ChartList.Sort` | src/main/java/ru/swetophor/astrowidjaspring/model/chart/ChartList.java:226-231 | a stable sort of the charts that is a permutation of them, with the names rebuilt and the counter moved |
| `ChartLists.ChartList.Clear` | src/main/java/ru/swetophor/astrowidjaspring/model/chart/ChartList.java:244-250 | both lists emptied; the counter moves only if the list was non-empty |
| `ChartLists.ChartList.SetItem` | src/main/java/ru/swetophor/astrowidjaspring/model/chart/ChartList.java:260-264 | position i is replaced in both lists and the previous chart returned; no other position changes; outside the list IndexOutOfBounds |
| `ChartLists.ChartList.InsertItem` | src/main/java/ru/swetophor/astrowidjaspring/model/chart/ChartList.java:270-273 | the chart and its name are inserted at i in both lists; the counter is not moved |
| `ChartLists.ChartList.Remove` | src/main/java/ru/swetophor/astrowidjaspring/model/chart/ChartList.java:279-283 | position i is taken out of both lists and returned; outside the list IndexOutOfBounds |
| `ChartLists.ChartList.RemoveByName` | src/main/java/ru/swetophor/astrowidjaspring/model/chart/ChartList.java:454-458 | the lists stay in step, and the outcome and the charts left are those of removing by name (`RemovedByName`) |
| `ChartLists.RemovedByNameFacts` | src/main/java/ru/swetophor/astrowidjaspring/model/chart/ChartList.java:454-458 | an absent name raises IndexOutOfBounds and changes nothing; otherwise the first slot of the name is taken out; with unique names no slot of that name is left |
| `ChartLists.ChartList.RemoveChart` | src/main/java/ru/swetophor/astrowidjaspring/model/chart/ChartList.java:467-471 | the lists stay in step, and the outcome and the charts left are those of removing the object (`RemovedObject`) |
| `ChartLists.RemovedObjectFacts` | src/main/java/ru/swetophor/astrowidjaspring/model/chart/ChartList.java:467-471 | an absent object raises IndexOutOfBounds and changes nothing; otherwise its first slot is taken out, so exactly one occurrence of it is gone |
| `ChartLists.RetainAllDesyncs` | src/main/java/ru/swetophor/astrowidjaspring/model/chart/ChartList.java:353-358 | as written, a different object with a listed chart's name keeps the name and drops the chart, so the lists fall out of step |
| `ChartLists.RemoveAllDesyncs` | src/main/java/ru/swetophor/astrowidjaspring/model/chart/ChartList.java:370-376 | as written, the same collection drops the name and keeps the chart |
| `ChartLists.RetainedAsWrittenWhenNamesIdentify` | src/main/java/ru/swetophor/astrowidjaspring/model/chart/ChartList.java:353-358 | when the collection's names single out its objects, retainAll as written agrees with the corrected version |
| `ChartLists.RemovedAsWrittenWhenNamesIdentify` | src/main/java/ru/swetophor/astrowidjaspring/model/chart/ChartList.java:370-376 | the same agreement for removeAll |
| `ChartLists.ChartList.RetainAll` | src/main/java/ru/swetophor/astrowidjaspring/model/chart/ChartList.java:353-358 | corrected: keeps exactly the slots whose object is in the collection, names rebuilt; true and a counter step iff some slot went |
| `ChartLists.ChartList.RemoveAll` | src/main/java/ru/swetophor/astrowidjaspring/model/chart/ChartList.java:370-376 | corrected: drops exactly the slots whose object is in the collection, names rebuilt; true and a counter step iff some slot went |
| `ChartLists.FirstChange` | src/main/java/ru/swetophor/astrowidjaspring/model/chart/ChartList.java:154-164 | the first element whose action modifies the list, every earlier one leaving it alone |
| `ChartLists.ChartList.ForEach` | src/main/java/ru/swetophor/astrowidjaspring/model/chart/ChartList.java:154-164 | the walk visits slots in order up to and including the first action that modifies the list, and then fails with ConcurrentModification; otherwise it visits all and passes |
| `Combinations.CombinationsSorted` | src/main/java/ru/swetophor/astrowidjaspring/model/AstroMatrix.java:292-310 | heavenCombinations yields 2^K - 1 combinations, sorted by size, a permutation of the counter-order list in which equal sizes keep counter order |
| `Combinations.CombinationsPermuted` | src/main/java/ru/swetophor/astrowidjaspring/model/AstroMatrix.java:308 | the size sort only reorders the counter-order list |
| `Combinations.CombinationShape` | src/main/java/ru/swetophor/astrowidjaspring/model/AstroMatrix.java:295-306 | every combination is non-empty, lists charts in chart order, and has at most two charts in aspects mode |
| `Combinations.CombinationsDistinct` | src/main/java/ru/swetophor/astrowidjaspring/model/AstroMatrix.java:295-306 | in patterns mode, distinct charts give pairwise different combinations for different counters |
| `Combinations.AspectCombinationsRepeat` | src/main/java/ru/swetophor/astrowidjaspring/model/AstroMatrix.java:295-306 | as written, with three or more charts aspects mode gives [first, second] for both counter 3 and counter 7 |
| `Combinations.AspectCombinationsFacts` | src/main/java/ru/swetophor/astrowidjaspring/model/AstroMatrix.java:283-290 | the documented aspects list (every chart, then every pair) has N(N+1)/2 entries, sorted by size, one or two charts each, pairwise different |
| `AstroMatrices.IndexLocates` | src/main/java/ru/swetophor/astrowidjaspring/model/AstroMatrix.java:62-68 | for distinct charts of distinct astras, the index numbers each astra with its own position in the flat list |
| `AstroMatrices.PairsFromFacts` | src/main/java/ru/swetophor/astrowidjaspring/model/AstroMatrix.java:72-75 | the pairs i < j < n of the table, each once and n(n-1)/2 of them |
| `AstroMatrices.KeptValid` | src/main/java/ru/swetophor/astrowidjaspring/model/AstroMatrix.java:208 | every pattern kept is from the list |
| `AstroMatrices.KeptValidMembers` | src/main/java/ru/swetophor/astrowidjaspring/model/AstroMatrix.java:208 | a pattern is kept iff it is in the list and isValid |
| `AstroMatrices.KeptOfHeavenSet` | src/main/java/ru/swetophor/astrowidjaspring/model/AstroMatrix.java:333 | every pattern kept is from the list and is ofHeavenSet of the charts |
| `AstroMatrices.KeptOfHeavenSetComplete` | src/main/java/ru/swetophor/astrowidjaspring/model/AstroMatrix.java:333 | every pattern of the list that is ofHeavenSet of the charts is kept |
| `AstroMatrices.KeptOfHeavenSetConcat` | src/main/java/ru/swetophor/astrowidjaspring/model/AstroMatrix.java:333 | the filter distributes over concatenation, so it keeps the list's order |
| `AstroMatrices.KeptOfHeavenSetByStrength` | src/main/java/ru/swetophor/astrowidjaspring/model/AstroMatrix.java:333 | filtering a list ordered by non-increasing strength leaves it so ordered |
| `AstroMatrices.BuildIndex` | src/main/java/ru/swetophor/astrowidjaspring/model/AstroMatrix.java:62-68 | the loop builds the index function: each chart maps its astras to running numbers, a later chart or astra overriding an equal earlier one |
| `AstroMatrices.NumberAstras` | src/main/java/ru/swetophor/astrowidjaspring/model/AstroMatrix.java:66-67 | the inner loop numbers one chart's astras on from the counter |
| `AstroMatrices.BuildTable` | src/main/java/ru/swetophor/astrowidjaspring/model/AstroMatrix.java:72-75 | a fresh n x n table with the batch of (i, j) in every cell i < j and nothing elsewhere |
| `AstroMatrices.Absorb` | src/main/java/ru/swetophor/astrowidjaspring/model/AstroMatrix.java:254 | addAllAstras of a sub-pattern adds its members; for distinct astras the members become exactly the astras marked since the search began |
| `AstroMatrices.AstroMatrix.constructor` | src/main/java/ru/swetophor/astrowidjaspring/model/AstroMatrix.java:47-76 | heavens as given, the flat astra list, the index function and the full triangular table |
| `AstroMatrices.AstroMatrix.AstraIndex` | src/main/java/ru/swetophor/astrowidjaspring/model/AstroMatrix.java:85-93 | -1 or a position of the flat list |
| `AstroMatrices.AstroMatrix.GetResonanceFor` | src/main/java/ru/swetophor/astrowidjaspring/model/AstroMatrix.java:103-115 | IllegalArgument exactly when the astras are identical or either is not indexed; otherwise the cell of the two positions, smaller first |
| `AstroMatrices.AstroMatrix.InResonance` | src/main/java/ru/swetophor/astrowidjaspring/model/AstroMatrix.java:127-129 | the exact-harmonic answer of the pair's batch; the lookup's error, or a null cell, propagates as an error |
| `AstroMatrices.AstroMatrix.Stream` | src/main/java/ru/swetophor/astrowidjaspring/model/AstroMatrix.java:162-167 | the non-empty cells, row by row: the batch of every pair i < j in that order |
| `AstroMatrices.AstroMatrix.ResonancesFor` | src/main/java/ru/swetophor/astrowidjaspring/model/AstroMatrix.java:137-154 | the batches of x with every other accepted astra in position order, x itself skipped |
| `AstroMatrices.AstroMatrix.GetConnectedAstras` | src/main/java/ru/swetophor/astrowidjaspring/model/AstroMatrix.java:270-275 | exactly the accepted astras adjacent to x at the harmonic, in position order |
| `AstroMatrices.AstroMatrix.GetAcceptanceMask` | src/main/java/ru/swetophor/astrowidjaspring/model/AstroMatrix.java:220-226 | a fresh mask true exactly at the astras whose chart is among the given ones |
| `AstroMatrices.AstroMatrix.GatherResonants` | src/main/java/ru/swetophor/astrowidjaspring/model/AstroMatrix.java:246-256 | a fresh pattern of the harmonic; the astras newly marked are exactly those reachable from x through unmarked accepted astras, and for distinct astras they are the pattern's members |
| `AstroMatrices.AstroMatrix.StartGather` | src/main/java/ru/swetophor/astrowidjaspring/model/AstroMatrix.java:247-251 | x marked, a pattern of x alone, and x's neighbours |
| `AstroMatrices.AstroMatrix.GatherNeighbour` | src/main/java/ru/swetophor/astrowidjaspring/model/AstroMatrix.java:251-254 | one neighbour of the walk keeps the search invariant: an unmarked one is gathered and absorbed, a marked one skipped |
| `AstroMatrices.AstroMatrix.GatherComponent` | src/main/java/ru/swetophor/astrowidjaspring/model/AstroMatrix.java:205-207 | one sweep step adds a pattern whose members are a new component disjoint from the earlier ones |
| `AstroMatrices.AstroMatrix.GatherAll` | src/main/java/ru/swetophor/astrowidjaspring/model/AstroMatrix.java:204-207 | the sweep splits the accepted astras into disjoint connected components, one gathered pattern per component |
| `AstroMatrices.AstroMatrix.FindPatterns` | src/main/java/ru/swetophor/astrowidjaspring/model/AstroMatrix.java:202-211 | the mask marks exactly the astras of the active charts; the gathered list has one pattern per connected component of the harmonic's resonance graph among the masked astras, in sweep order; the result is `FindResult` of it: the isValid patterns, as a permutation, by non-increasing average strength, with equal strengths in gathering order |
| `AstroMatrices.FindResult` | src/main/java/ru/swetophor/astrowidjaspring/model/AstroMatrix.java:208-210 | the result of the filter and sort holds only patterns of the gathered list |
| `AstroMatrices.FindResultFacts` | src/main/java/ru/swetophor/astrowidjaspring/model/AstroMatrix.java:208-210 | the result holds exactly the isValid gathered patterns, as a permutation of the filtered list, by non-increasing average strength, and the patterns of each strength keep their gathered order (the sort is stable) |
| `AstroMatrices.StrengthSortStable` | src/main/java/ru/swetophor/astrowidjaspring/model/AstroMatrix.java:209 | the strength sort keeps, for every strength, the patterns of that strength in their original order |
| `AstroMatrices.StrengthSlice` | src/main/java/ru/swetophor/astrowidjaspring/model/AstroMatrix.java:209 | the entries of one key, taken in order, are the patterns of the matching strength, in order |
| `AstroMatrices.AstroMatrix.FindFinding` | src/main/java/ru/swetophor/astrowidjaspring/model/AstroMatrix.java:202-211 | one call of findPatterns with its record: the mask of the charts' astras, the components, the gathered list and the sorted result, all of the given harmonic |
| `AstroMatrices.AstroMatrix.ValidByStrength` | src/main/java/ru/swetophor/astrowidjaspring/model/AstroMatrix.java:208-210 | the result is `FindResult` of the gathered list: its isValid patterns, as a permutation, by non-increasing average strength |
| `AstroMatrices.AstroMatrix.Cypher` | src/main/java/ru/swetophor/astrowidjaspring/model/AstroMatrix.java:296-305 | the charts at the set bits of the counter, low bit first, at most two in aspects mode |
| `AstroMatrices.AstroMatrix.HeavenCombinations` | src/main/java/ru/swetophor/astrowidjaspring/model/AstroMatrix.java:292-310 | the size sort of the counter-order combinations 1 .. 2^K - 1 |
| `AstroMatrices.AstroMatrix.Accepted` | src/main/java/ru/swetophor/astrowidjaspring/model/AstroMatrix.java:220-226 | the acceptance mask as a value: true exactly at the astras of the given charts |
| `AstroMatrices.AstroMatrix.AnalyseHarmonic` | src/main/java/ru/swetophor/astrowidjaspring/model/AstroMatrix.java:332-334 | the finding recorded is what findPatterns finds at the harmonic for the charts (components, gathered list, sorted result); the harmonic's list grows by its ofHeavenSet patterns in order, and every other harmonic's list is unchanged |
| `AstroMatrices.AstroMatrix.KeepFound` | src/main/java/ru/swetophor/astrowidjaspring/model/AstroMatrix.java:333-334 | the harmonic's list grows by the ofHeavenSet part of the result, in order; other harmonics' lists and the records of what the matrix found stay as they were |
| `AstroMatrices.AstroMatrix.GetPatternAnalysis` | src/main/java/ru/swetophor/astrowidjaspring/model/AstroMatrix.java:328-337 | a fresh analysis and, for each harmonic 1 .. edge, the record of what findPatterns finds there for the charts (mask of the charts' astras, components of the resonance graph, gathered patterns, sorted result); the analysis lists exactly the ofHeavenSet part of each result, in order, and nothing at other harmonics |
| `AstroMatrices.AstroMatrix.AnalysisContents` | src/main/java/ru/swetophor/astrowidjaspring/model/AstroMatrix.java:328-337 | at each harmonic 1 .. edge a pattern is listed iff it was gathered by findPatterns there and is isValid and ofHeavenSet of the charts; the list is by non-increasing average strength and every pattern carries the matrix's settings |
| `AstroMatrices.AstroMatrix.AnalyseNext` | src/main/java/ru/swetophor/astrowidjaspring/model/AstroMatrix.java:331-334 | one round of the harmonic loop: the records of the harmonics below stay valid findings of this matrix, one more is added, and the lists match their ofHeavenSet parts |
| `AstroMatrices.AstroMatrix.FoundGrows` | src/main/java/ru/swetophor/astrowidjaspring/model/AstroMatrix.java:331-334 | adding one harmonic's finding of this matrix keeps every earlier harmonic's finding and kept list |
| `AstroMatrices.AstroMatrix.GatheredGrows` | src/main/java/ru/swetophor/astrowidjaspring/model/AstroMatrix.java:205-207 | a pattern for a new component keeps the gathered list matching the components |
| `AstroMatrices.AddOfHeavenSet` | src/main/java/ru/swetophor/astrowidjaspring/model/AstroMatrix.java:333-334 | the harmonic's list grows by exactly the ofHeavenSet patterns, in order; other harmonics unchanged |
| `AstroMatrices.AddKept` | src/main/java/ru/swetophor/astrowidjaspring/model/AstroMatrix.java:333-334 | one addPattern of that loop: the harmonic's stored list becomes the earlier list plus the patterns added so far and this one |
| `AstroMatrices.StrengthOrder` | src/main/java/ru/swetophor/astrowidjaspring/model/AstroMatrix.java:209 | the reversed strength sort is a permutation with non-increasing average strength |
| `AstroMatrices.ResonanceSymmetric` | src/main/java/ru/swetophor/astrowidjaspring/model/AstroMatrix.java:103-115 | the lookup is symmetric in its two astras |
| `AstroMatrices.ResonanceOfIndexed` | src/main/java/ru/swetophor/astrowidjaspring/model/AstroMatrix.java:103-115 | for distinct charts of distinct astras, two different astras find the batch of their flat positions |
| `AstroMatrices.StreamHoldsEveryPair` | src/main/java/ru/swetophor/astrowidjaspring/model/AstroMatrix.java:162-167 | the stream holds n(n-1)/2 batches, each pair of positions exactly once |
| `Patterns.PairSumOfTwo` | src/main/java/ru/swetophor/astrowidjaspring/model/Pattern.java:89-96 | two astras accumulate exactly the one clearance between them |
| `Patterns.Pattern.PossiblePairs` | src/main/java/ru/swetophor/astrowidjaspring/model/Pattern.java:380-382 | possiblePairs is exactly n(n−1)/2 for n members (the halving is exact) and at least 1 from two members on |
| `Patterns.InResonanceSymmetric` | src/main/java/ru/swetophor/astrowidjaspring/model/Pattern.java:364-372 | the resonance test of two members does not depend on their order |
| `Patterns.PairsEven` | src/main/java/ru/swetophor/astrowidjaspring/model/Pattern.java:380-382 | n(n−1) is even |
| `Patterns.AddedMembersUnion` | src/main/java/ru/swetophor/astrowidjaspring/model/Pattern.java:213-215 | for distinct astras, addAllAstras leaves the union of both member sets |
| `Patterns.ClustersAfterPartition` | src/main/java/ru/swetophor/astrowidjaspring/model/Pattern.java:99-111 | the clusters stay a partition of the members once the new astra joins the first conjuncted cluster or a new one |
| `Patterns.ClusterJoinsConjuncted` | src/main/java/ru/swetophor/astrowidjaspring/model/Pattern.java:101-108 | an astra shares a cluster with others only when it is conjuncted with one of them |
| `Patterns.HeavensOfAppend` | src/main/java/ru/swetophor/astrowidjaspring/model/Pattern.java:86-87 | the chart list stays exactly the distinct charts of the members, in order of first appearance |
| `Patterns.CoherentAppend` | src/main/java/ru/swetophor/astrowidjaspring/model/Pattern.java:82-111 | appending an astra keeps members, accumulators, total clearance, charts and clusters consistent with each other |
| `Patterns.PairSumNonNegative` | src/main/java/ru/swetophor/astrowidjaspring/model/Pattern.java:89-96 | the total clearance is never negative |
| `Patterns.Pattern.constructor` | src/main/java/ru/swetophor/astrowidjaspring/model/Pattern.java:55-58 | an empty pattern of the harmonic over the matrix |
| `Patterns.Pattern.WithAstras` | src/main/java/ru/swetophor/astrowidjaspring/model/Pattern.java:69-72 | the pattern after adding the astras one by one |
| `Patterns.Pattern.AddAstra` | src/main/java/ru/swetophor/astrowidjaspring/model/Pattern.java:82-111 | an astra the same as a member changes nothing; otherwise every accumulator rises by the new clearance sum, the astra gets that sum, the total rises by it, its chart is added if new, and it joins the first conjuncted cluster or a new one |
| `Patterns.Pattern.AppendAstra` | src/main/java/ru/swetophor/astrowidjaspring/model/Pattern.java:86-111 | the same update for an astra known to be new, keeping the coherence invariant |
| `Patterns.Pattern.AccumulateClearances` | src/main/java/ru/swetophor/astrowidjaspring/model/Pattern.java:89-96 | the clearance sum to the members, every accumulator and the total shifted by it |
| `Patterns.Pattern.JoinCluster` | src/main/java/ru/swetophor/astrowidjaspring/model/Pattern.java:99-111 | the clusters after the astra joins the first conjuncted cluster or a new one; nothing else changes |
| `Patterns.Pattern.AddAllAstras` | src/main/java/ru/swetophor/astrowidjaspring/model/Pattern.java:213-215 | the members after adding the other pattern's astras one by one |
| `Patterns.Pattern.DefineOrb` | src/main/java/ru/swetophor/astrowidjaspring/model/Pattern.java:242-246 | the primal orb, or half of it only for a multi-chart pattern with half orbs enabled; always inside (0, 180) for a valid setting |
| `Patterns.Pattern.ByConnectivity` | src/main/java/ru/swetophor/astrowidjaspring/model/Pattern.java:122-127 | a permutation of the members by non-increasing accumulated connectivity |
| `Patterns.DimensionCountsCharts` | src/main/java/ru/swetophor/astrowidjaspring/model/Pattern.java:195-197 | getDimension is the number of distinct charts among the members |
| `Patterns.TwoMemberStrength` | src/main/java/ru/swetophor/astrowidjaspring/model/Pattern.java:226-232 | a two-astra pattern's average strength is the strength of its one clearance |
| `Patterns.AverageStrengthBounds` | src/main/java/ru/swetophor/astrowidjaspring/model/Pattern.java:226-232 | getAverageStrength: the average strength is at most 100, and 0 below two members |
| `Patterns.IsValidNeedsTwo` | src/main/java/ru/swetophor/astrowidjaspring/model/Pattern.java:364-372 | isValid: no pattern below two members is valid; a two-member one is valid exactly when its pair resonates |
| `Patterns.OfHeavenSetExactly` | src/main/java/ru/swetophor/astrowidjaspring/model/Pattern.java:400-403 | for distinct charts, ofHeavenSet holds exactly when the pattern's charts are those charts |
| `PatternAnalyses.StrengthSumBound` | src/main/java/ru/swetophor/astrowidjaspring/model/PatternAnalysis.java:65-67 | the strengths of n patterns sum to at most 100·n |
| `PatternAnalyses.SizeSumAtLeastTwice` | src/main/java/ru/swetophor/astrowidjaspring/model/PatternAnalysis.java:81-83 | valid patterns have at least two astras each, so their sizes sum to at least 2·n |
| `PatternAnalyses.SizeSumConcat` | src/main/java/ru/swetophor/astrowidjaspring/model/PatternAnalysis.java:81-83 | the astra count is additive over appended pattern lists |
| `PatternAnalyses.PatternAnalysis.constructor` | src/main/java/ru/swetophor/astrowidjaspring/model/PatternAnalysis.java:20 | an analysis with no harmonics |
| `PatternAnalyses.PatternAnalysis.GetPatternsFor` | src/main/java/ru/swetophor/astrowidjaspring/model/PatternAnalysis.java:43-46 | empty exactly for a harmonic with no list; every listed pattern is of that harmonic |
| `PatternAnalyses.PatternAnalysis.Size` | src/main/java/ru/swetophor/astrowidjaspring/model/PatternAnalysis.java:48-50 | the number of harmonics that hold patterns |
| `PatternAnalyses.PatternAnalysis.AddPattern` | src/main/java/ru/swetophor/astrowidjaspring/model/PatternAnalysis.java:30-34 | the pattern appended to its harmonic's list, created when absent; other harmonics unchanged; the size grows only for a new harmonic |
| `PatternAnalyses.AverageStrengthForHarmonicBound` | src/main/java/ru/swetophor/astrowidjaspring/model/PatternAnalysis.java:61-68 | getAverageStrengthForHarmonic: the mean strength of a harmonic is at most 100, and 0 for a harmonic with no list |
| `PatternAnalyses.AstrasQuantityForValid` | src/main/java/ru/swetophor/astrowidjaspring/model/PatternAnalysis.java:77-84 | getAstrasQuantityFor: a harmonic of valid patterns holds at least twice as many astras as patterns |
| `PatternTables.TableKeysMembers` | src/main/java/ru/swetophor/astrowidjaspring/model/PatternTable.java:44-45 | the table's keys are exactly the combinations of the charts, each once |
| `PatternTables.AnalysedGrows` | src/main/java/ru/swetophor/astrowidjaspring/model/PatternTable.java:44-45 | putting one more analysis of the matrix keeps every entry the analysis, with its findings, of its key |
| `PatternTables.TableContents` | src/main/java/ru/swetophor/astrowidjaspring/model/PatternTable.java:44-45 | for every key and harmonic 1 .. edge, the entry lists exactly the isValid, ofHeavenSet patterns findPatterns gathers for that combination, by non-increasing average strength |
| `PatternTables.Put` | src/main/java/ru/swetophor/astrowidjaspring/model/PatternTable.java:45 | one put adds or replaces the key's entry with a getPatternAnalysis of the matrix for that combination, with its findings; the other entries stay |
| `PatternTables.Tabulate` | src/main/java/ru/swetophor/astrowidjaspring/model/PatternTable.java:44-45 | keys in first-put order over heavenCombinations(false), each mapped to the analysis of the matrix for it, whose lists are the ofHeavenSet parts of what findPatterns finds at each harmonic |
| `PatternTables.PutAll` | src/main/java/ru/swetophor/astrowidjaspring/model/PatternTable.java:44-45 | the loop leaves the first occurrences of the combinations as keys, each mapped to the analysis of the matrix for it |
| `PatternTables.PatternTable.Init` | src/main/java/ru/swetophor/astrowidjaspring/model/PatternTable.java:42-46 | the fields of a built table, whose entries stay the matrix's analyses of their keys |
| `PatternTables.NewPatternTable` | src/main/java/ru/swetophor/astrowidjaspring/model/PatternTable.java:42-46 | a fresh table over the matrix's charts whose keys are the combinations in size order and whose entries are the matrix's pattern analyses of them, harmonic by harmonic |
| `PatternTables.DistinctChartsKeys` | src/main/java/ru/swetophor/astrowidjaspring/model/PatternTable.java:42-46 | over distinct charts the keys are all 2^N - 1 combinations, sorted by size |
| `PatternTables.SingleChartKeys` | src/main/java/ru/swetophor/astrowidjaspring/model/PatternTable.java:42-46 | a one-chart matrix gives the one entry for that chart |
| `HarmonicServices.HarmonicService.constructor` | src/main/java/ru/swetophor/astrowidjaspring/service/HarmonicService.java:14 | an empty cache |
| `HarmonicServices.HarmonicService.GetMatrix` | src/main/java/ru/swetophor/astrowidjaspring/service/HarmonicService.java:16-22 | the cached matrix when present, unchanged cache; otherwise a fresh matrix over the object's charts is cached and returned |
| `HarmonicServices.HarmonicService.CalculatePatternTable` | src/main/java/ru/swetophor/astrowidjaspring/service/HarmonicService.java:24-26 | a fresh pattern table over the object's charts, whose entries are the analyses of the cached matrix; earlier cache entries kept |
| `HarmonicServices.Memoised` | src/main/java/ru/swetophor/astrowidjaspring/service/HarmonicService.java:16-22 | two requests for the same object give the same matrix |
| `Configuration.ParseBooleanOfToString` | src/main/java/ru/swetophor/astrowidjaspring/config/Settings.java:76-80 | a boolean written with String.valueOf reads back as itself through Boolean.parseBoolean |
| `Configuration.ParseSettingLineSkips` | src/main/java/ru/swetophor/astrowidjaspring/config/Settings.java:47-52 | blank lines, comments and lines without '=' set nothing; a line that sets something has a '='-free, non-blank property and a non-blank value |
| `Configuration.SplitAt` | src/main/java/ru/swetophor/astrowidjaspring/config/Settings.java:48-52 | the split at the first '=' gives a '='-free, non-blank property and a non-blank value, or nothing |
| `Configuration.Store` | src/main/java/ru/swetophor/astrowidjaspring/config/Settings.java:53 | a parsed line puts its value under its property; a skipped line changes nothing |
| `Configuration.LastEntryWins` | src/main/java/ru/swetophor/astrowidjaspring/config/Settings.java:46-54 | a property takes the value of the last line that sets it |
| `Configuration.UnsetEntryKept` | src/main/java/ru/swetophor/astrowidjaspring/config/Settings.java:46-54 | a property no line sets keeps its earlier value, or stays absent |
| `Configuration.ApplyLinesOverrides` | src/main/java/ru/swetophor/astrowidjaspring/config/Settings.java:46-54 | the line loop equals storing the parsed entries in order |
| `Configuration.ApplyLinesConcat` | src/main/java/ru/swetophor/astrowidjaspring/config/Settings.java:46-54 | loading two runs of lines is loading the first and then the second |
| `Configuration.LastLineWins` | src/main/java/ru/swetophor/astrowidjaspring/config/Settings.java:46-54 | the same for raw lines: the last line setting a property decides its value |
| `Configuration.UnsetPropertyKept` | src/main/java/ru/swetophor/astrowidjaspring/config/Settings.java:46-54 | the same for raw lines: a property no line sets is unchanged |
| `Configuration.SettingLineRoundTrip` | src/main/java/ru/swetophor/astrowidjaspring/config/Settings.java:154 | a "property = value" line written by saveSettings parses back to that property and value |
| `Configuration.ReloadSaved` | src/main/java/ru/swetophor/astrowidjaspring/config/Settings.java:151-161 | loading what saveSettings wrote gives every saved property its own value back |
| `Configuration.Settings.constructor` | src/main/java/ru/swetophor/astrowidjaspring/config/Settings.java:32-39 | the map of the static initialiser: the six defaults |
| `Configuration.Settings.LoadSettings` | src/main/java/ru/swetophor/astrowidjaspring/config/Settings.java:41-61 | the map after applying each line of the file in order |
| `Configuration.Settings.LoadLine` | src/main/java/ru/swetophor/astrowidjaspring/config/Settings.java:47-53 | one line of the loop applied to the map |
| `Configuration.Settings.EdgeHarmonic` | src/main/java/ru/swetophor/astrowidjaspring/config/Settings.java:90-92 | the stored integer when it is a Java int written with an optional sign and ASCII digits, else 108 |
| `Configuration.Settings.OrbDivisor` | src/main/java/ru/swetophor/astrowidjaspring/config/Settings.java:105-107 | the stored integer when it is a Java int written with an optional sign and ASCII digits, else 30 |
| `Configuration.Settings.IsHalfOrbsForDoubles` | src/main/java/ru/swetophor/astrowidjaspring/config/Settings.java:93-95 | true exactly for a stored "true" in any case; the default true when absent |
| `Configuration.Settings.IsAutosave` | src/main/java/ru/swetophor/astrowidjaspring/config/Settings.java:97-99 | true exactly for a stored "true" in any case; the default false when absent |
| `Configuration.Settings.IsAutoloadEnabled` | src/main/java/ru/swetophor/astrowidjaspring/config/Settings.java:118-120 | true exactly for a stored "true" in any case; the default true when absent |
| `Configuration.Settings.AutoloadFile` | src/main/java/ru/swetophor/astrowidjaspring/config/Settings.java:101-103 | the stored file name, else "autosave.daw" |
| `Configuration.Settings.PrimalOrb` | src/main/java/ru/swetophor/astrowidjaspring/config/Settings.java:114-116 | 360 divided by the divisor; none for a zero divisor |
| `Configuration.Settings.SetAutosave` | src/main/java/ru/swetophor/astrowidjaspring/config/Settings.java:126-128 | stores the flag's text, after which isAutosave returns the flag |
| `Configuration.Settings.SetAutoloadFile` | src/main/java/ru/swetophor/astrowidjaspring/config/Settings.java:130-133 | stores the name with ".daw" added when missing, after which the file name ends in ".daw" |
| `Configuration.Settings.SetEdgeHarmonic` | src/main/java/ru/swetophor/astrowidjaspring/config/Settings.java:135-137 | stores the number's text, after which getEdgeHarmonic returns it |
| `Configuration.Settings.SetOrbDivider` | src/main/java/ru/swetophor/astrowidjaspring/config/Settings.java:139-141 | stores the number's text, after which getOrbDivisor returns it |
| `Configuration.Settings.DisableHalfOrbForDoubles` | src/main/java/ru/swetophor/astrowidjaspring/config/Settings.java:143-145 | stores "false", after which half orbs are off |
| `Configuration.Settings.EnableHalfOrbForDoubles` | src/main/java/ru/swetophor/astrowidjaspring/config/Settings.java:147-149 | stores "true", after which half orbs are on |
| `Configuration.DefaultsRead` | src/main/java/ru/swetophor/astrowidjaspring/config/Settings.java:25-39 | the defaults read back as 108, 30, a primal orb of 12, half orbs on, autosave off, autoload on, "autosave.daw" |
| `DawFiles.AddExtension` | src/main/java/ru/swetophor/astrowidjaspring/repository/FileChartRepository.java:205-209 | ends in ".daw" and starts with the given name |
| `DawFiles.RemoveExtension` | src/main/java/ru/swetophor/astrowidjaspring/repository/FileChartRepository.java:301-305 | the name itself, or the name with one ".daw" cut off |
| `DawFiles.AddExtensionIdempotent` | src/main/java/ru/swetophor/astrowidjaspring/repository/FileChartRepository.java:205-209 | adding the extension twice is adding it once |
| `DawFiles.RemoveAddedExtension` | src/main/java/ru/swetophor/astrowidjaspring/repository/FileChartRepository.java:205-209 | removing an added extension gives back a name that had none |
| `DawFiles.AddRemovedExtension` | src/main/java/ru/swetophor/astrowidjaspring/repository/FileChartRepository.java:301-305 | adding back a removed extension gives back a ".daw" file name |
| `DawFiles.RemoveOnlyOneExtension` | src/main/java/ru/swetophor/astrowidjaspring/repository/FileChartRepository.java:301-305 | only one extension is removed: "a.daw.daw" becomes "a.daw" |
| `DawFiles.SlotNames` | src/main/java/ru/swetophor/astrowidjaspring/repository/FileChartRepository.java:169 | the name of every slot, none for a reserved one |
| `DawFiles.AddSlot` | src/main/java/ru/swetophor/astrowidjaspring/model/chart/ChartList.java:174-187 | a null slot is appended; a chart whose name is already listed leaves the slots unchanged (the collision cancelled); any other chart is appended |
| `DawFiles.AddSlotKeepsNamesUnique` | src/main/java/ru/swetophor/astrowidjaspring/model/chart/ChartList.java:174-187 | adding a slot never lists a chart name twice |
| `DawFiles.ScanFromConcat` | src/main/java/ru/swetophor/astrowidjaspring/repository/FileChartRepository.java:107-148 | reading lines in two parts is reading the first part and then the second from where it left off |
| `DawFiles.ScanErrorPersists` | src/main/java/ru/swetophor/astrowidjaspring/repository/FileChartRepository.java:107-148 | an exception on a line ends the read: later lines change nothing |
| `DawFiles.ScanConsistent` | src/main/java/ru/swetophor/astrowidjaspring/repository/FileChartRepository.java:107-148 | after the loop, the slots hold charts or reserved nulls, one reserved null per queued multichart description, and no chart name is listed twice |
| `DawFiles.ScanLines` | src/main/java/ru/swetophor/astrowidjaspring/repository/FileChartRepository.java:99-148 | the line loop computes the line-by-line reading |
| `DawFiles.Components` | src/main/java/ru/swetophor/astrowidjaspring/repository/FileChartRepository.java:165-176 | when every part names a chart of the album, one chart per part |
| `DawFiles.Multis` | src/main/java/ru/swetophor/astrowidjaspring/repository/FileChartRepository.java:159-180 | when every description is well formed, one multichart per description |
| `DawFiles.RestoreMultis` | src/main/java/ru/swetophor/astrowidjaspring/repository/FileChartRepository.java:159-180 | the multichart loop computes the multicharts of the descriptions or the first FileFormat error |
| `DawFiles.RestoreMulti` | src/main/java/ru/swetophor/astrowidjaspring/repository/FileChartRepository.java:161-179 | one description: FileFormat when it has no component part or a component is not in the album, else the multichart of the title and the components |
| `DawFiles.FindComponents` | src/main/java/ru/swetophor/astrowidjaspring/repository/FileChartRepository.java:165-176 | the component loop computes the charts named by the parts, or none for a missing one |
| `DawFiles.FillSlots` | src/main/java/ru/swetophor/astrowidjaspring/repository/FileChartRepository.java:183-187 | the fill loop puts the multicharts into the null slots, in order |
| `DawFiles.ReadChartsFromDaw` | src/main/java/ru/swetophor/astrowidjaspring/repository/FileChartRepository.java:84-195 | the reader computes the album reading: IllegalArgument for a blank name, FileNotFound for a missing file, else the charts and multicharts under the name without extension |
| `DawFiles.FillComplete` | src/main/java/ru/swetophor/astrowidjaspring/repository/FileChartRepository.java:183-187 | with as many multicharts as null slots, every slot ends filled and every chart keeps its slot |
| `DawFiles.ReadLeavesNoHoles` | src/main/java/ru/swetophor/astrowidjaspring/repository/FileChartRepository.java:84-195 | a file the reader accepts gives a list with no null slot, one entry per slot reserved or taken |
| `DawFiles.IgnoredLineChangesNothing` | src/main/java/ru/swetophor/astrowidjaspring/repository/FileChartRepository.java:109-110 | a blank or "//" line anywhere in the file changes nothing |
| `DawFiles.OneChartFile` | src/main/java/ru/swetophor/astrowidjaspring/repository/FileChartRepository.java:131-153 | a file of one "#name" header and astra lines reads as that one chart with those astras |
| `DawFiles.AssembleOneChart` | src/main/java/ru/swetophor/astrowidjaspring/repository/FileChartRepository.java:151-187 | a chart still being filled at the end, with no multicharts, is the whole album |
| `DawFiles.OneChartScan` | src/main/java/ru/swetophor/astrowidjaspring/repository/FileChartRepository.java:131-147 | the scan of a one-chart file ends filling that chart with its astras |
| `DawFiles.HeaderName` | src/main/java/ru/swetophor/astrowidjaspring/repository/FileChartRepository.java:351-353 | the stripped name after '#', or between '<' and the last ':'; an exception exactly for a '<' line without ':' |
| `DawFiles.SummaryNames` | src/main/java/ru/swetophor/astrowidjaspring/repository/FileChartRepository.java:349-354 | one name per header line, or the first exception |
| `DawFiles.ChartHeaderName` | src/main/java/ru/swetophor/astrowidjaspring/repository/FileChartRepository.java:353 | a "#name" header summarises as its name |
| `DawFiles.MultiHeaderName` | src/main/java/ru/swetophor/astrowidjaspring/repository/FileChartRepository.java:352 | a "<title: …>" header summarises as its title |
| `Library.FirstPrefixed` | src/main/java/ru/swetophor/astrowidjaspring/service/LibraryService.java:188-190 | the first element that begins with the input, or -1 exactly when none does |
| `Library.IndexFromInput` | src/main/java/ru/swetophor/astrowidjaspring/service/LibraryService.java:165-194 | IllegalArgument for a blank input or an empty list; otherwise an index whose element equals the input, is selected by the number, or begins with the input |
| `Library.DefineIndexFromInput` | src/main/java/ru/swetophor/astrowidjaspring/service/LibraryService.java:165-194 | the loops compute the name / number / prefix lookup, including its errors |
| `Library.IndexOfExactName` | src/main/java/ru/swetophor/astrowidjaspring/service/LibraryService.java:171-173 | an input equal to an element finds the first such element |
| `Library.IndexByNumber` | src/main/java/ru/swetophor/astrowidjaspring/service/LibraryService.java:175-186 | a number k from 1 to the length that names no element selects the k-th element |
| `Library.IndexByPrefix` | src/main/java/ru/swetophor/astrowidjaspring/service/LibraryService.java:188-190 | a non-numeric input naming no element finds the first element it begins |
| `Library.NumberNeverPrefix` | src/main/java/ru/swetophor/astrowidjaspring/service/LibraryService.java:175-186 | an out-of-range number fails even when an element begins with it |
| `Library.IndexFromInputFails` | src/main/java/ru/swetophor/astrowidjaspring/service/LibraryService.java:165-194 | the lookup fails exactly when no rule applies |
| `Library.RetainFiltered` | src/main/java/ru/swetophor/astrowidjaspring/service/LibraryService.java:58-64 | retainAll of the filtered copy keeps exactly the filtered elements |
| `Library.UpdatedFreshestFirst` | src/main/java/ru/swetophor/astrowidjaspring/service/LibraryService.java:68 | after an update the cards run from the most recently modified down |
| `Library.UpdatedContents` | src/main/java/ru/swetophor/astrowidjaspring/service/LibraryService.java:50-66 | a non-empty library keeps each card whose album still exists and was not updated, as often as before, and gains the updates |
| `Library.UpdatedEmpty` | src/main/java/ru/swetophor/astrowidjaspring/service/LibraryService.java:50-52 | an empty library is reloaded with the summary's cards |
| `Library.AlbumLines` | src/main/java/ru/swetophor/astrowidjaspring/service/LibraryService.java:95-97 | one line per card, numbered from 1 |
| `Library.ListAlbums` | src/main/java/ru/swetophor/astrowidjaspring/service/LibraryService.java:91-99 | the "no file" message for an empty library, else the numbered lines |
| `Library.ListAlbumsAppend` | src/main/java/ru/swetophor/astrowidjaspring/service/LibraryService.java:95-98 | a card added at the end adds one line numbered after the rest |
| `Library.LibraryService.constructor` | src/main/java/ru/swetophor/astrowidjaspring/service/LibraryService.java:79-82 | the library read from the summary |
| `Library.LibraryService.ReloadLibrary` | src/main/java/ru/swetophor/astrowidjaspring/service/LibraryService.java:74-77 | the library becomes the summary |
| `Library.LibraryService.UpdateLibrary` | src/main/java/ru/swetophor/astrowidjaspring/service/LibraryService.java:49-69 | the library becomes the update function of the old library |
| `Library.LibraryService.FindListName` | src/main/java/ru/swetophor/astrowidjaspring/service/LibraryService.java:136-146 | IllegalArgument when the input picks no album, else the name of an album of the library |
| `Controller.AnswersExclusive` | src/main/java/ru/swetophor/astrowidjaspring/client/CommandLineController.java:34-42 | no answer is both a yes and a no |
| `Controller.AnswersIgnoreCase` | src/main/java/ru/swetophor/astrowidjaspring/client/CommandLineController.java:37-42 | lower-casing an answer does not change whether it is a yes or a no |
| `Controller.ShoutedAnswers` | src/main/java/ru/swetophor/astrowidjaspring/client/CommandLineController.java:34-42 | "ДА" and "Yes" are yes, "НЕТ" and "No" are no |
| `Controller.FirstPrefixStop` | src/main/java/ru/swetophor/astrowidjaspring/client/CommandLineController.java:491-493 | the first slot whose name is null or begins with the query, every earlier one named and not begun by it; -1 when none stops the search |
| `Controller.Located` | src/main/java/ru/swetophor/astrowidjaspring/client/CommandLineController.java:471-498 | EmptyRequest exactly for a blank query; any other failure is ChartNotFound or a null name; a found object is a slot of the list |
| `Controller.ByPosition` | src/main/java/ru/swetophor/astrowidjaspring/client/CommandLineController.java:477-487 | a slot of the list, or ChartNotFound |
| `Controller.ByPrefix` | src/main/java/ru/swetophor/astrowidjaspring/client/CommandLineController.java:491-496 | a slot of the list, ChartNotFound, or the failure on a null name |
| `Controller.FindChart` | src/main/java/ru/swetophor/astrowidjaspring/client/CommandLineController.java:471-498 | the search computes the number / name / prefix location, with its errors |
| `Controller.ScanNames` | src/main/java/ru/swetophor/astrowidjaspring/client/CommandLineController.java:491-496 | the loop over the names computes the prefix search |
| `Controller.ByPrefixStops` | src/main/java/ru/swetophor/astrowidjaspring/client/CommandLineController.java:491-496 | the prefix search stops at the first null name, at the first name the query begins, or fails at the end |
| `Controller.LocatedByPosition` | src/main/java/ru/swetophor/astrowidjaspring/client/CommandLineController.java:477-481 | a number from 1 to the length finds the slot at that position |
| `Controller.LocatedByName` | src/main/java/ru/swetophor/astrowidjaspring/client/CommandLineController.java:488-489 | an exact non-numeric name finds the first object of that name |
| `Controller.LocatedByPrefix` | src/main/java/ru/swetophor/astrowidjaspring/client/CommandLineController.java:490-496 | over a list without empty slots, a query that is no number and no name succeeds exactly when some name begins with it, and finds the first such |
| `Controller.LocatedExtendsListSearch` | src/main/java/ru/swetophor/astrowidjaspring/model/chart/ChartList.java:486-508 | whatever the list's own findChart finds, the controller's search finds the same |
| `Controller.ExtractOrder` | src/main/java/ru/swetophor/astrowidjaspring/client/CommandLineController.java:623-627 | IndexOutOfBounds exactly when the cut lies outside the trimmed input (a negative offset measured on the untrimmed length); otherwise no longer than the trimmed input |
| `Controller.ExtractLeadingCommand` | src/main/java/ru/swetophor/astrowidjaspring/client/CommandLineController.java:624-625 | a command, a space and an unpadded argument give the argument back |
| `Controller.ExtractTrailingCommand` | src/main/java/ru/swetophor/astrowidjaspring/client/CommandLineController.java:626 | an unpadded argument followed by a command suffix gives the argument back |
| `Controller.ExtractPaddedInput` | src/main/java/ru/swetophor/astrowidjaspring/client/CommandLineController.java:626 | with a leading space the negative cut falls one character late: " ab" cut by 1 gives "ab" |
| `Controller.MergedAsWritten` | src/main/java/ru/swetophor/astrowidjaspring/client/CommandLineController.java:582-590 | a new name is appended with true; a known name leaves the list as it was unless the same object is put back in its slot |
| `Controller.MergeChartToListSilently` | src/main/java/ru/swetophor/astrowidjaspring/client/CommandLineController.java:582-590 | as written: the result and the new list are those of the as-written merge |
| `Controller.MergeReplaceFails` | src/main/java/ru/swetophor/astrowidjaspring/client/CommandLineController.java:586-587 | as written, replacing with a different object of a known name fails with IndexOutOfBounds and leaves the list unchanged |
| `Controller.Merged` | src/main/java/ru/swetophor/astrowidjaspring/client/CommandLineController.java:582-590 | corrected: never fails, and never shortens the list |
| `Controller.MergedPlacesChart` | src/main/java/ru/swetophor/astrowidjaspring/client/CommandLineController.java:582-590 | corrected: the object is in the list afterwards unless its name was known and replacing was declined; only its name's slot (or a new last slot) changes; the result says whether the list changed |
| `Controller.MergedKeepsUnique` | src/main/java/ru/swetophor/astrowidjaspring/client/CommandLineController.java:582-590 | corrected: a list of unique names keeps them unique |
| `Controller.MergeChartToList` | src/main/java/ru/swetophor/astrowidjaspring/client/CommandLineController.java:582-590 | corrected: the result and the new list are those of the merge by name |
| `Decorator.MaxLength` | src/main/java/ru/swetophor/astrowidjaspring/utils/Decorator.java:134-139 | the longest line's length, 0 for no lines |
| `Decorator.Complement` | src/main/java/ru/swetophor/astrowidjaspring/utils/Decorator.java:99-104 | the string padded with spaces to the length, never cut |
| `Decorator.BorderRow` | src/main/java/ru/swetophor/astrowidjaspring/utils/Decorator.java:117-125 | a row of the given length: the beginning, the body character, the ending |
| `Decorator.FrameText` | src/main/java/ru/swetophor/astrowidjaspring/utils/Decorator.java:127-154 | the loops build the framed text: top border, every line cut into chunks of the width, bottom border |
| `Decorator.AppendLine` | src/main/java/ru/swetophor/astrowidjaspring/utils/Decorator.java:143-148 | the inner loop appends the line's chunks as middle rows |
| `Decorator.ChunksCoverLine` | src/main/java/ru/swetophor/astrowidjaspring/utils/Decorator.java:144-148 | the chunks of a line put together give the line back, all full width but the last |
| `Decorator.ChunksFit` | src/main/java/ru/swetophor/astrowidjaspring/utils/Decorator.java:144-148 | no chunk is wider than the frame |
| `Decorator.MiddleRowsWidth` | src/main/java/ru/swetophor/astrowidjaspring/utils/Decorator.java:179-184 | every middle row is width + 4 long |
| `Decorator.FrameIsRectangular` | src/main/java/ru/swetophor/astrowidjaspring/utils/Decorator.java:127-154 | every row of the frame is width + 4 long, the top and bottom rows are corner, horizontal characters, corner |
| `Decorator.FittingLinesAreNotCut` | src/main/java/ru/swetophor/astrowidjaspring/utils/Decorator.java:143-149 | lines that fit are shown one per row, padded |
| `Decorator.FramedTextLines` | src/main/java/ru/swetophor/astrowidjaspring/utils/Decorator.java:117-125 | when no frame character ends a line, the lines of the output are exactly the frame's rows |
| `Decorator.FrameTextWith` | src/main/java/ru/swetophor/astrowidjaspring/utils/Decorator.java:81-83 | the one-symbol frame uses the symbol everywhere and a maximum width of 80 |
| `Decorator.FrameTextWithPattern` | src/main/java/ru/swetophor/astrowidjaspring/utils/Decorator.java:85-97 | the pattern overload computes the frame of a 1-, 6- or 8-character pattern, IllegalArgument otherwise |
| `Decorator.PatternLengths` | src/main/java/ru/swetophor/astrowidjaspring/utils/Decorator.java:85-97 | only patterns of 1, 6 or 8 characters succeed; a one-character pattern ignores the maximum width |
| `Decorator.AsteriskFrameWidth` | src/main/java/ru/swetophor/astrowidjaspring/utils/Decorator.java:250-252 | asteriskFrame asks for 90 columns but gets the one-symbol frame of 80 |
| `Decorator.StretchTable` | src/main/java/ru/swetophor/astrowidjaspring/utils/Decorator.java:219-233 | the loop computes the stretched table or its IllegalArgument |
| `Decorator.StretchedShape` | src/main/java/ru/swetophor/astrowidjaspring/utils/Decorator.java:219-233 | stretching succeeds exactly for a table of at least 3 lines no taller than the height and, when it grows, a second line of at least 5; the result has the height, the original lines in place and the last line last, the new lines being the filler |
| `Decorator.StretchAll` | src/main/java/ru/swetophor/astrowidjaspring/utils/Decorator.java:202-206 | all tables stretched, one per table |
| `Decorator.StretchAllFits` | src/main/java/ru/swetophor/astrowidjaspring/utils/Decorator.java:202-206 | stretching the tables succeeds exactly when every table is already tall enough or can be stretched |
| `Decorator.StretchAllValue` | src/main/java/ru/swetophor/astrowidjaspring/utils/Decorator.java:202-206 | after stretching, each shorter table is its stretched version and every other table is left as it was |
| `Decorator.ConcatenateTables` | src/main/java/ru/swetophor/astrowidjaspring/utils/Decorator.java:186-217 | the method computes the side-by-side concatenation or its error |
| `Decorator.StretchTables` | src/main/java/ru/swetophor/astrowidjaspring/utils/Decorator.java:202-206 | the loop stretches every shorter table to the height, or fails with the first error |
| `Decorator.AssembleRows` | src/main/java/ru/swetophor/astrowidjaspring/utils/Decorator.java:208-214 | the row loop computes the joined rows, or IndexOutOfBounds |
| `Decorator.AssembleRow` | src/main/java/ru/swetophor/astrowidjaspring/utils/Decorator.java:209-212 | one row: the first table's line, then each other table's line without its first character |
| `Decorator.RowPrefixValue` | src/main/java/ru/swetophor/astrowidjaspring/utils/Decorator.java:209-212 | a row fails exactly on an empty line of a later table, with IndexOutOfBounds; otherwise it is the first line and the others' tails |
| `Decorator.RowsPrefixFails` | src/main/java/ru/swetophor/astrowidjaspring/utils/Decorator.java:208-214 | all rows succeed exactly when no later table has an empty line there, and otherwise the error is IndexOutOfBounds |
| `Decorator.RowsPrefixValue` | src/main/java/ru/swetophor/astrowidjaspring/utils/Decorator.java:208-214 | rows that succeed are the joined rows, each followed by a line feed |
| `Decorator.StretchedClean` | src/main/java/ru/swetophor/astrowidjaspring/utils/Decorator.java:219-233 | stretching lines without line feeds adds none |
| `Decorator.JoinedRowsClean` | src/main/java/ru/swetophor/astrowidjaspring/utils/Decorator.java:209-212 | joined rows of clean lines hold no line feed |
| `Decorator.ConcatenatedTablesShape` | src/main/java/ru/swetophor/astrowidjaspring/utils/Decorator.java:186-217 | no table is IllegalArgument, one table comes back unchanged; otherwise every stretched table has the greatest height, and the output's lines are the joined rows, or IndexOutOfBounds exactly on an empty line of a later table |

## Left out

- Floating point: positions, orbs and strengths are exact reals. IEEE rounding artefacts are not modelled, Math.round ties are taken exactly at .5, and Double.parseDouble is reduced to signed decimal numerals.
- ResonanceBatch and findMultiplier (the per-arc harmonic arithmetic) are not part of this model. The matrix takes them as an oracle parameter of two predicates on a pair of astras and a harmonic: whether the pair resonates at that harmonic (hasHarmonicResonance), and whether the harmonic is exact for the pair (hasExactHarmonic).
- calculateAspectTable and AspectTable are not part of this model. HarmonicService keeps only the matrix cache and the pattern table.
- Mechanics.resolveCollision and mergeChartIntoList ask the user interactively. ChartList.add models the collision as the user cancelling: the list is unchanged and the result is false. The `.daw` reader adds its charts through the same add, so a chart whose name is already read leaves the slots unchanged.
- Configuration.Settings.EdgeHarmonic: reads the stored value with ParseInt, which accepts only the ASCII digits '0'..'9'. Integer.parseInt at Settings.java:71 also accepts the other Unicode decimal digits, such as Arabic-Indic ones; for such a value the model falls back to the default 108 where Java gives the number. The set of those digits depends on the Java version's Unicode tables, so it is not modelled.
- Configuration.Settings.OrbDivisor: the same ASCII restriction; a value such as "١٢" gives the default 30 in the model where Java gives 12.
- AstroMatrices.AstroMatrix.HeavenCombinations: does not model Java int overflow of the counter for more than 30 charts, because a chart list of that size is outside the program's use.
- AstroMatrices.AstroMatrix.HeavenCombinations: keeps the as-written aspects mode described under Findings, because its only aspects-mode caller is the aspect table, which is not part of this model.
- AstroMatrices.AstroMatrix.GetAcceptanceMask: the acceptance mask is passed to the resonance search as a `seq<bool>` value, because the search only reads it.
- Decorator.FrameText: requires a maximum width of at least 1, because with width 0 and a non-empty line the source's chunk loop never ends. Decorator.FrameTextWithPattern passes the same requirement on for 6- and 8-character patterns only; a 1-character pattern ignores the maximum width, as in the source.
- ChartList.getString, the parallel stream in the pattern search and ChartList.addAll(int, Collection) are not modelled. They are rendering, scheduling and an unused overload.
- Rendering and reports are not modelled: getConnectivityReport, getClusteredLines, the PatternAnalysis text representations, getPatternReport and listAlbumsContents.
- Patterns.Pattern.AddAllAstras: the per-member clearance accumulators after a merge depend on HashMap iteration order. The model fixes insertion order, and only the accumulator totals are stated.
- File I/O and interactive cycles are not modelled: mainCycle, editSettings, libraryCycle, workCycle, getUserChartInput, the confirmationAnswer prompt loop, loadAlbum, deleteAlbum, autosave, saveChartsAsAlbum, addChartsToAlbum, albumNames, getLibrarySummery, getLibraryUpdates and readChartsFrom. Their pure parts (parsing, summaries, lookups) are modelled.
- The `%n` line separator is modelled as "\n".
- String lengths and cuts: a string is a sequence of Unicode scalar values, and every length, substring bound and width counts those. Java's String.length and substring count UTF-16 code units, so a character beyond U+FFFF (an emoji, say) counts once in the model and twice in Java. For text holding such characters the model pads, chunks and cuts differently, and never cuts inside a surrogate pair where Java can. This affects Decorator.MaxLength, Decorator.Complement, Decorator.FrameText, Decorator.AppendLine, Decorator.FrameTextWithPattern, Decorator.StretchTable and Decorator.ConcatenateTables (Decorator.java:61, 69-71, 100), Controller.ExtractOrder, Charts.ChartObject.GetShortenedName and DawFiles.HeaderName. The program's own constants lie in the Basic Multilingual Plane, so only text the user supplies is affected.
- Configuration.Settings.PrimalOrb: a divisor of 0 gives None where Java's double division gives Infinity.
- Library.LibraryService.UpdateLibrary: the repository's album list and file contents are parameters.
- AstroMatrices.AstroMatrix.GatherResonants: allAstras.indexOf is modelled by positions in the flat list. Equal astras are taken to be distinct objects wherever indexOf matters.
- ChartLists.ChartList.ForEach: the action is represented only by the number of modifications it makes to the list, because that alone decides how far the walk goes and whether it fails; what the action does to the chart objects themselves is not modelled.
- ChartLists.ChartList.Sort: takes a real-valued sort key in place of a Comparator, so a comparator that no key can express (one that is not a total preorder by a number) is not modelled; the program itself never calls this sort.
- The TreeMap of a pattern analysis (its `listMap` field) is a Dafny map from harmonic to patterns, so the TreeMap's ascending iteration order is not modelled; the modelled operations only look harmonics up and count them.
- Patterns.ValidConfig: requires a primal orb below 180°, that is an orb divisor of at least 3, because calculateStrength divides by 180 − orb; the settings command accepts divisors 1 and 2 (orbs of 360° and 180°), which the model does not cover.
- CelestialMechanics.Strength: requires an orb in (0°, 180°) for the same reason; at an orb of 180° a clearance beyond it would divide by zero.

## Findings

| source | as written | input that shows it | evidently intended | confidence | as-written member | corrected member |
|---|---|---|---|---|---|---|
| src/main/java/ru/swetophor/astrowidjaspring/utils/CelestialMechanics.java:124-140 | degreesToSignAndCoors rounds the position to whole arc-seconds and divides the degrees by 30 without reducing a full turn | position 359.9999° rounds to 360°0'0", which is reported as sign 13 | 360° reads as 0° Aries, so the sign is always 1 to 12 | not executed | `CelestialMechanics.ThirteenthSign` | `CelestialMechanics.WrappedSignInRange` |
| src/main/java/ru/swetophor/astrowidjaspring/model/chart/ChartList.java:353-358 | retainAll filters the names by name but the charts by object identity | a list holding chart A, with retainAll given a different object B that has A's name: the name stays and the chart goes | names and charts stay parallel | not executed | `ChartLists.RetainAllDesyncs` | `ChartLists.ChartList.RetainAll` |
| src/main/java/ru/swetophor/astrowidjaspring/model/chart/ChartList.java:370-376 | removeAll filters the names by name but the charts by object identity | a list holding chart A, with removeAll given a different object B that has A's name: the name goes and the chart stays | names and charts stay parallel | not executed | `ChartLists.RemoveAllDesyncs` | `ChartLists.ChartList.RemoveAll` |
| src/main/java/ru/swetophor/astrowidjaspring/model/AstroMatrix.java:295-306 | in aspects mode a combination of more than two charts is cut to its first two | three charts: counters 3 and 7 both give [first, second] | the documented N(N+1)/2 distinct lists of one or two charts | not executed | `Combinations.AspectCombinationsRepeat` | `Combinations.AspectCombinationsFacts` |
| src/main/java/ru/swetophor/astrowidjaspring/client/CommandLineController.java:586-587 | with replace, the slot is looked up by indexOf(chart), that is by object | a different chart object whose name is already in the list: indexOf gives -1 and setItem fails with IndexOutOfBounds | the slot is looked up by name, as at line 557 | not executed | `Controller.MergeReplaceFails` | `Controller.MergedPlacesChart` |
