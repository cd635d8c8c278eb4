/**
 * The harmonic service: one resonance matrix per chart object, built on the
 * first request and kept for every later one.
 */
module HarmonicServices {
  import opened Charts
  import opened Patterns
  import opened AstroMatrices
  import opened PatternTables

  /** The arrays behind the matrices of the cache. */
  function Tables(ms: map<ChartObject, AstroMatrix>): (r: set<object>)
    reads ms.Values
    ensures forall co :: co in ms ==> ms[co].matrix in r
  {
    set co | co in ms :: ms[co].matrix
  }

  class HarmonicService {
    /** The cache: the matrix built for each chart object requested so far. */
    var matrices: map<ChartObject, AstroMatrix>
    /** What the batches answer about resonance (ResonanceBatch, not part of this model). */
    const oracle: Oracle
    /** The orb settings of the matrices. */
    const config: Config

    /** Every cached matrix is a matrix over the charts of its chart object. */
    ghost predicate Valid()
      reads this, matrices.Values, Tables(matrices)
    {
      forall co :: co in matrices ==>
        matrices[co].Valid() && matrices[co].heavens == co.GetData()
        && matrices[co].oracle == oracle && matrices[co].config == config
    }

    constructor (oracle: Oracle, config: Config)
      ensures Valid() && matrices == map[]
      ensures this.oracle == oracle && this.config == config
    {
      matrices := map[];
      this.oracle := oracle;
      this.config := config;
    }

    /**
     * getMatrix: the cached matrix of the chart object; on the first
     * request a new matrix over its charts is built and cached. Entries are
     * never replaced or removed.
     */
    method GetMatrix(co: ChartObject) returns (m: AstroMatrix)
      requires Valid()
      modifies this
      ensures Valid() && co in matrices && m == matrices[co]
      ensures m.Valid() && m.heavens == co.GetData() && m.oracle == oracle && m.config == config
      ensures co in old(matrices) ==> m == old(matrices[co]) && matrices == old(matrices)
      ensures co !in old(matrices) ==> fresh(m) && matrices == old(matrices)[co := m]
    {
      if co !in matrices {
        ghost var wasValid := Valid();
        var built := new AstroMatrix(co.GetData(), oracle, config);
        assert wasValid == Valid();
        matrices := matrices[co := built];
        assert forall d :: d in matrices && d != co ==> matrices[d] == old(matrices[d]);
      }
      m := matrices[co];
    }

    /** calculatePatternTable: the pattern table of the chart object's cached matrix. */
    method CalculatePatternTable(co: ChartObject, edge: int) returns (table: PatternTable)
      requires Valid() && ValidConfig(config)
      modifies this
      ensures Valid() && co in matrices
      ensures forall d :: d in old(matrices) ==> d in matrices && matrices[d] == old(matrices[d])
      ensures fresh(table) && table.heavens == co.GetData() && table.keys == TableKeys(co.GetData())
      ensures Analysed(matrices[co], edge, table.tables, table.found) && Masked(matrices[co], table.found)
    {
      var m := GetMatrix(co);
      ghost var wasValid := Valid();
      table := NewPatternTable(m, edge);
      assert wasValid == Valid();
    }
  }

  /** A second request for the same chart object returns the matrix of the first. */
  method Memoised(service: HarmonicService, co: ChartObject) returns (first: AstroMatrix, second: AstroMatrix)
    requires service.Valid()
    modifies service
    ensures first == second && service.Valid()
  {
    first := service.GetMatrix(co);
    second := service.GetMatrix(co);
  }
}
