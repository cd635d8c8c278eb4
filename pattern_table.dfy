/**
 * The pattern table of a resonance matrix: one pattern analysis per
 * combination of the matrix's charts, in the order of the combinations.
 */
module PatternTables {
  import opened Sorting
  import opened Lists
  import opened Charts
  import opened Patterns
  import opened PatternAnalyses
  import opened Combinations
  import opened AstroMatrices

  /** The keys of the table of a matrix over `hs`: the full combinations, sorted by size, in first-put order. */
  function TableKeys(hs: seq<Chart>): seq<seq<Chart>>
  {
    FirstOccurrences(SortBy(Unsorted(hs, false), Size))
  }

  /** The table has each combination as a key exactly once, and no other key. */
  lemma TableKeysMembers(hs: seq<Chart>)
    ensures Distinct(TableKeys(hs))
    ensures forall k :: 0 <= k < |TableKeys(hs)| ==> TableKeys(hs)[k] in Unsorted(hs, false)
    ensures forall k :: 0 <= k < |Unsorted(hs, false)| ==> Unsorted(hs, false)[k] in TableKeys(hs)
  {
    CombinationsPermuted(hs, false);
    FirstOccurrencesOfPermutation(SortBy(Unsorted(hs, false), Size), Unsorted(hs, false));
  }

  /** The patterns held in any of the analyses' records. */
  function AllRecorded(fs: map<seq<Chart>, map<int, Finding>>): (r: set<Pattern>)
    ensures forall c :: c in fs ==> Recorded(fs[c]) <= r
  {
    (set c, k, p | c in fs && k in fs[c] && p in fs[c][k].gathered :: p)
    + (set c, k, p | c in fs && k in fs[c] && p in fs[c][k].result :: p)
  }

  /** Each analysis in the table is getPatternAnalysis of its key over the matrix. */
  ghost predicate Analysed(matrix: AstroMatrix, edge: int, ts: map<seq<Chart>, PatternAnalysis>, fs: map<seq<Chart>, map<int, Finding>>)
    reads ts.Values, AllRecorded(fs)
  {
    forall c :: c in ts ==> c in fs && ts[c] in ts.Values && matrix.AnalysisOf(c, edge, ts[c], fs[c])
  }

  /** Every finding of the table was made over the astras of its combination. */
  ghost predicate Masked(matrix: AstroMatrix, fs: map<seq<Chart>, map<int, Finding>>)
    reads matrix.allAstras
  {
    forall c :: c in fs ==> matrix.MaskedBy(fs[c], c)
  }

  /**
   * What the table lists for a combination at a harmonic 1 .. edge: exactly
   * the patterns findPatterns gathered there over the astras of that
   * combination that are isValid and ofHeavenSet of it, strongest first.
   */
  lemma TableContents(matrix: AstroMatrix, edge: int, ts: map<seq<Chart>, PatternAnalysis>, fs: map<seq<Chart>, map<int, Finding>>,
                      c: seq<Chart>, h: int)
    requires Analysed(matrix, edge, ts, fs) && c in ts && 1 <= h <= edge
    ensures c in fs && h in fs[c] && matrix.FoundAt(fs[c][h], h)
    ensures forall p :: p in ts[c].GetPatternsFor(h) <==> p in fs[c][h].gathered && p.IsValid() && p.OfHeavenSet(c)
    ensures forall p :: p in ts[c].GetPatternsFor(h) ==> ValidConfig(p.config)
    ensures var ps := ts[c].GetPatternsFor(h);
      forall i, j :: 0 <= i < j < |ps| ==> ps[i].AverageStrength() >= ps[j].AverageStrength()
  {
    matrix.AnalysisContents(c, edge, ts[c], fs[c], h);
  }

  /** Putting the analysis of one more combination keeps every entry an analysis of its key. */
  lemma AnalysedGrows(matrix: AstroMatrix, edge: int, ts: map<seq<Chart>, PatternAnalysis>, fs: map<seq<Chart>, map<int, Finding>>,
                      c: seq<Chart>, anal: PatternAnalysis, found: map<int, Finding>)
    requires Analysed(matrix, edge, ts, fs) && matrix.AnalysisOf(c, edge, anal, found)
    ensures Analysed(matrix, edge, ts[c := anal], fs[c := found])
  {
    var ts', fs' := ts[c := anal], fs[c := found];
    forall d | d in ts'
      ensures d in fs' && ts'[d] in ts'.Values && matrix.AnalysisOf(d, edge, ts'[d], fs'[d])
    {
      if d != c {
        assert ts'[d] == ts[d] && fs'[d] == fs[d];
      }
    }
  }

  /** One put of the forEach: the analysis of combination `c` replaces or adds its entry. */
  method Put(matrix: AstroMatrix, edge: int, ts: map<seq<Chart>, PatternAnalysis>, ghost fs: map<seq<Chart>, map<int, Finding>>, c: seq<Chart>)
      returns (ts': map<seq<Chart>, PatternAnalysis>, ghost fs': map<seq<Chart>, map<int, Finding>>)
    requires matrix.Valid() && ValidConfig(matrix.config) && Analysed(matrix, edge, ts, fs) && Masked(matrix, fs)
    ensures forall d :: d in ts' <==> d in ts || d == c
    ensures Analysed(matrix, edge, ts', fs') && Masked(matrix, fs')
  {
    var anal;
    ghost var f;
    ghost var was := Analysed(matrix, edge, ts, fs);
    ghost var wasMasked := Masked(matrix, fs);
    assert forall p :: p in AllRecorded(fs) ==> allocated(p);
    anal, f := matrix.GetPatternAnalysis(c, edge);
    assert was == Analysed(matrix, edge, ts, fs);
    assert wasMasked == Masked(matrix, fs);
    AnalysedGrows(matrix, edge, ts, fs, c, anal, f);
    ts', fs' := ts[c := anal], fs[c := f];
  }

  /**
   * The forEach of the PatternTable constructor: each combination of
   * heavenCombinations(false), in order, put with its pattern analysis into
   * the LinkedHashMap.
   */
  method Tabulate(matrix: AstroMatrix, edge: int)
      returns (ks: seq<seq<Chart>>, ts: map<seq<Chart>, PatternAnalysis>, ghost fs: map<seq<Chart>, map<int, Finding>>)
    requires matrix.Valid() && ValidConfig(matrix.config)
    ensures ks == TableKeys(matrix.heavens)
    ensures forall c :: c in ts <==> c in ks
    ensures Analysed(matrix, edge, ts, fs) && Masked(matrix, fs)
  {
    var combinations := matrix.HeavenCombinations(false);
    ks, ts, fs := PutAll(matrix, edge, combinations);
  }

  /** The loop of the forEach: the combinations put one after the other. */
  method PutAll(matrix: AstroMatrix, edge: int, combinations: seq<seq<Chart>>)
      returns (ks: seq<seq<Chart>>, ts: map<seq<Chart>, PatternAnalysis>, ghost fs: map<seq<Chart>, map<int, Finding>>)
    requires matrix.Valid() && ValidConfig(matrix.config)
    ensures ks == FirstOccurrences(combinations)
    ensures forall c :: c in ts <==> c in ks
    ensures Analysed(matrix, edge, ts, fs) && Masked(matrix, fs)
  {
    ks, ts, fs := [], map[], map[];
    for i := 0 to |combinations|
      invariant ks == FirstOccurrences(combinations[..i])
      invariant forall c :: c in ts <==> c in ks
      invariant Analysed(matrix, edge, ts, fs) && Masked(matrix, fs)
    {
      var c := combinations[i];
      assert combinations[..i + 1][..i] == combinations[..i];
      ghost var before := ks;
      ks := if c in ks then ks else ks + [c];
      assert forall d :: d in ks <==> d in before || d == c;
      ts, fs := Put(matrix, edge, ts, fs, c);
    }
    assert combinations[..|combinations|] == combinations;
  }

  class PatternTable {
    /** The charts of the matrix. */
    const heavens: seq<Chart>
    /** The keys of the LinkedHashMap, in insertion order. */
    var keys: seq<seq<Chart>>
    /** The analysis of each combination. */
    var tables: map<seq<Chart>, PatternAnalysis>
    /** What findPatterns found for each combination, harmonic by harmonic. */
    ghost var found: map<seq<Chart>, map<int, Finding>>

    /** The fields of a table whose analyses are already built. */
    constructor Init(heavens: seq<Chart>, keys: seq<seq<Chart>>, tables: map<seq<Chart>, PatternAnalysis>,
                     ghost found: map<seq<Chart>, map<int, Finding>>, ghost matrix: AstroMatrix, ghost edge: int)
      requires Analysed(matrix, edge, tables, found) && Masked(matrix, found)
      ensures this.heavens == heavens && this.keys == keys && this.tables == tables && this.found == found
      ensures Analysed(matrix, edge, this.tables, this.found) && Masked(matrix, this.found)
    {
      ghost var was := Analysed(matrix, edge, tables, found);
      ghost var wasMasked := Masked(matrix, found);
      this.heavens := heavens;
      this.keys := keys;
      this.tables := tables;
      this.found := found;
      new;
      assert forall p :: p in AllRecorded(found) ==> p as object != this;
      assert was == Analysed(matrix, edge, tables, found);
      assert wasMasked == Masked(matrix, found);
    }
  }

  /**
   * The PatternTable constructor: the charts of the matrix, and every
   * combination of heavenCombinations(false), in order, put with the
   * pattern analysis of the matrix for it.
   */
  method NewPatternTable(matrix: AstroMatrix, edge: int) returns (table: PatternTable)
    requires matrix.Valid() && ValidConfig(matrix.config)
    ensures fresh(table)
    ensures table.heavens == matrix.heavens
    ensures table.keys == TableKeys(matrix.heavens)
    ensures forall c :: c in table.tables <==> c in table.keys
    ensures Analysed(matrix, edge, table.tables, table.found) && Masked(matrix, table.found)
  {
    var ks, ts;
    ghost var fs;
    ks, ts, fs := Tabulate(matrix, edge);
    table := new PatternTable.Init(matrix.heavens, ks, ts, fs, matrix, edge);
  }

  /** Over distinct charts every combination is a new key: 2^N - 1 keys, by ascending size. */
  lemma DistinctChartsKeys(hs: seq<Chart>)
    requires Distinct(hs)
    ensures TableKeys(hs) == SortBy(Unsorted(hs, false), Size)
    ensures |TableKeys(hs)| == Pow2(|hs|) - 1
    ensures SortedBy(TableKeys(hs), Size)
  {
    var all := Unsorted(hs, false);
    UnsortedDistinct(hs);
    CombinationsPermuted(hs, false);
    DistinctPermutation(all, SortBy(all, Size));
    FirstOccurrencesOfDistinct(SortBy(all, Size));
    CombinationsSorted(hs, false);
  }

  /** Distinct charts give distinct combinations. */
  lemma UnsortedDistinct<T>(hs: seq<T>)
    requires Distinct(hs)
    ensures Distinct(Unsorted(hs, false))
  {
    var all := Unsorted(hs, false);
    forall i, j | 0 <= i < j < |all| ensures all[i] != all[j] {
      CombinationsDistinct(hs, i + 1, j + 1);
    }
  }

  /** A matrix over one chart gives a table with the single entry for that chart. */
  lemma SingleChartKeys(c: Chart)
    ensures TableKeys([c]) == [[c]]
  {
    assert Pow2(1) == 2;
    assert BitIndices(1, 0) == [0] + BitIndices(0, 1) == [0];
    assert Combination([c], 1, false) == Pick([c], [0]) == [c];
    assert Unsorted([c], false) == [[c]];
    assert SortBy([[c]], Size) == Insert([c], [], Size) == [[c]];
    assert FirstOccurrences([[c]]) == [[c]];
  }
}
