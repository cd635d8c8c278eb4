/**
 * The resonance matrix of one or more charts: every astra of the charts in
 * one flat list, an index from chart and astra to the flat position, and a
 * triangular table holding one resonance batch for every pair of positions.
 * Pattern search walks the resonance graph of the matrix; the chart
 * combinations and the per-combination analyses are built from it.
 */
module AstroMatrices {
  import opened Wrappers
  import opened Sorting
  import opened Lists
  import opened Charts
  import opened Patterns
  import opened PatternAnalyses
  import opened ResonanceGraphs
  import opened Combinations

  /** A ResonanceBatch of the table: the pair of flat positions it relates, `i < j`. */
  datatype Batch = Batch(i: nat, j: nat)

  /**
   * What one run of findPatterns produced at a harmonic: the patterns it
   * returns, the patterns it gathered, the acceptance mask of the astras,
   * and the components and roots of the sweep they were gathered from.
   */
  datatype Finding = Finding(result: seq<Pattern>, gathered: seq<Pattern>, mask: seq<bool>, comps: seq<set<nat>>, roots: seq<nat>)

  // ---------------------------------------------------------------------
  // The flat astra list and the index
  // ---------------------------------------------------------------------

  /** The astras of the charts, chart after chart, each in its own order. */
  function Flattened(hs: seq<Chart>): (r: seq<Astra>)
    reads hs
  {
    if hs == [] then [] else Flattened(hs[..|hs| - 1]) + hs[|hs| - 1].astras
  }

  /** The index of one chart's astras, numbered from `base`; a later equal astra overrides. */
  function InnerIndex(astras: seq<Astra>, base: nat): (r: map<Astra, nat>)
    ensures r.Keys == set a | a in astras
    ensures forall a :: a in r ==> base <= r[a] < base + |astras|
  {
    if astras == [] then map[]
    else InnerIndex(astras[..|astras| - 1], base)[astras[|astras| - 1] := base + |astras| - 1]
  }

  /** The index the constructor builds: a chart listed twice keeps its last numbering. */
  function IndexOf(hs: seq<Chart>): (r: map<Chart, map<Astra, nat>>)
    reads hs
    ensures r.Keys == set c | c in hs
    ensures forall c, a :: c in r && a in r[c] ==> r[c][a] < |Flattened(hs)|
  {
    if hs == [] then map[]
    else
      var init, last := hs[..|hs| - 1], hs[|hs| - 1];
      assert forall c :: c in init ==> c in hs;
      IndexOf(init)[last := InnerIndex(last.astras, |Flattened(init)|)]
  }

  /** The matrix's snapshot of its astras: name, chart and position of each. */
  function Snap(astras: seq<Astra>): (r: seq<Point>)
    reads astras
    ensures |r| == |astras| && forall k :: 0 <= k < |astras| ==> r[k] == PointOf(astras[k])
  {
    if astras == [] then [] else Snap(astras[..|astras| - 1]) + [PointOf(astras[|astras| - 1])]
  }

  predicate DistinctCharts(hs: seq<Chart>)
  {
    forall i, j :: 0 <= i < j < |hs| ==> hs[i] != hs[j]
  }

  predicate DistinctAstras(astras: seq<Astra>)
  {
    forall i, j :: 0 <= i < j < |astras| ==> astras[i] != astras[j]
  }

  /** Within one chart whose astras are distinct, the q-th astra is numbered `base + q`. */
  lemma {:induction false} InnerIndexLocates(astras: seq<Astra>, base: nat, q: nat)
    requires DistinctAstras(astras) && q < |astras|
    ensures astras[q] in InnerIndex(astras, base) && InnerIndex(astras, base)[astras[q]] == base + q
  {
    if q < |astras| - 1 {
      InnerIndexLocates(astras[..|astras| - 1], base, q);
    }
  }

  /**
   * For distinct charts with distinct astras, the index numbers the q-th
   * astra of the c-th chart with its position in the flat list.
   */
  lemma IndexLocates(hs: seq<Chart>, c: nat, q: nat)
    requires DistinctCharts(hs) && c < |hs| && q < |hs[c].astras| && DistinctAstras(hs[c].astras)
    ensures hs[c] in IndexOf(hs) && hs[c].astras[q] in IndexOf(hs)[hs[c]]
    ensures var at := IndexOf(hs)[hs[c]][hs[c].astras[q]];
      at == |Flattened(hs[..c])| + q && at < |Flattened(hs)| && Flattened(hs)[at] == hs[c].astras[q]
  {
    IndexNumbers(hs, c, q);
    FlattenedAt(hs, c, q);
  }

  /** The index numbers the q-th astra of the c-th chart after the astras of the charts before it. */
  lemma {:induction false} IndexNumbers(hs: seq<Chart>, c: nat, q: nat)
    requires DistinctCharts(hs) && c < |hs| && q < |hs[c].astras| && DistinctAstras(hs[c].astras)
    ensures hs[c] in IndexOf(hs) && hs[c].astras[q] in IndexOf(hs)[hs[c]]
    ensures IndexOf(hs)[hs[c]][hs[c].astras[q]] == |Flattened(hs[..c])| + q
  {
    var init, last := hs[..|hs| - 1], hs[|hs| - 1];
    if c == |hs| - 1 {
      assert hs[..c] == init;
      InnerIndexLocates(last.astras, |Flattened(init)|, q);
    } else {
      assert init[..c] == hs[..c];
      assert init[c] == hs[c] && hs[c] != last;
      IndexNumbers(init, c, q);
    }
  }

  /** In the flat list, the q-th astra of the c-th chart follows the astras of the charts before it. */
  lemma {:induction false} FlattenedAt(hs: seq<Chart>, c: nat, q: nat)
    requires c < |hs| && q < |hs[c].astras|
    ensures |Flattened(hs[..c])| + q < |Flattened(hs)| && Flattened(hs)[|Flattened(hs[..c])| + q] == hs[c].astras[q]
  {
    var init, last := hs[..|hs| - 1], hs[|hs| - 1];
    assert Flattened(hs) == Flattened(init) + last.astras;
    if c == |hs| - 1 {
      assert hs[..c] == init;
    } else {
      assert init[..c] == hs[..c] && init[c] == hs[c];
      FlattenedAt(init, c, q);
    }
  }

  // ---------------------------------------------------------------------
  // The resonance table
  // ---------------------------------------------------------------------

  /** The batch of the table relating `x` and `b`, in flat order. */
  function Ordered(x: nat, b: nat): Batch
  {
    if b < x then Batch(b, x) else Batch(x, b)
  }

  /** The pairs of `0 .. n-1` row by row, from row `i` on: [0][1], [0][2], ..., [1][2], ... */
  function PairsFrom(i: nat, n: nat): (r: seq<Batch>)
    decreases n - i
  {
    if i + 1 >= n then [] else seq(n - i - 1, k requires 0 <= k < n - i - 1 => Batch(i, i + 1 + k)) + PairsFrom(i + 1, n)
  }

  /** The row-order pair list holds each pair `i < j < n` exactly where its row and column put it, and n(n-1)/2 pairs. */
  lemma PairsFromFacts(i: nat, n: nat)
    ensures 2 * |PairsFrom(i, n)| == (if i < n then (n - i) * (n - i - 1) else 0)
    ensures forall k :: 0 <= k < |PairsFrom(i, n)| ==> i <= PairsFrom(i, n)[k].i < PairsFrom(i, n)[k].j < n
    ensures forall a, b :: i <= a < b < n ==> Batch(a, b) in PairsFrom(i, n)
    ensures forall k, l :: 0 <= k < l < |PairsFrom(i, n)| ==> PairsFrom(i, n)[k] != PairsFrom(i, n)[l]
  {
    PairsFromCount(i, n);
    PairsFromBounds(i, n);
    PairsFromCover(i, n);
    PairsFromDistinct(i, n);
  }

  lemma {:induction false} PairsFromCount(i: nat, n: nat)
    ensures 2 * |PairsFrom(i, n)| == (if i < n then (n - i) * (n - i - 1) else 0)
    decreases n - i
  {
    if i + 1 < n {
      PairsFromCount(i + 1, n);
    }
  }

  lemma {:induction false} PairsFromBounds(i: nat, n: nat)
    ensures forall k :: 0 <= k < |PairsFrom(i, n)| ==> i <= PairsFrom(i, n)[k].i < PairsFrom(i, n)[k].j < n
    decreases n - i
  {
    if i + 1 < n {
      PairsFromBounds(i + 1, n);
    }
  }

  lemma {:induction false} PairsFromCover(i: nat, n: nat)
    ensures forall a, b :: i <= a < b < n ==> Batch(a, b) in PairsFrom(i, n)
    decreases n - i
  {
    if i + 1 < n {
      PairsFromCover(i + 1, n);
      var row := seq(n - i - 1, k requires 0 <= k < n - i - 1 => Batch(i, i + 1 + k));
      assert PairsFrom(i, n) == row + PairsFrom(i + 1, n);
      forall a, b | i <= a < b < n ensures Batch(a, b) in PairsFrom(i, n) {
        if a == i {
          assert row[b - i - 1] == Batch(a, b);
        }
      }
    }
  }

  lemma {:induction false} PairsFromDistinct(i: nat, n: nat)
    ensures forall k, l :: 0 <= k < l < |PairsFrom(i, n)| ==> PairsFrom(i, n)[k] != PairsFrom(i, n)[l]
    decreases n - i
  {
    if i + 1 < n {
      PairsFromDistinct(i + 1, n);
      PairsFromBounds(i + 1, n);
      var row := seq(n - i - 1, k requires 0 <= k < n - i - 1 => Batch(i, i + 1 + k));
      assert PairsFrom(i, n) == row + PairsFrom(i + 1, n);
    }
  }

  /** The table's cells for `i < j < n` are batches of their own pair, every other cell is empty. */
  ghost predicate Filled(m: array2<Option<Batch>>, n: nat)
    reads m
  {
    m.Length0 == n && m.Length1 == n
    && forall r, s :: 0 <= r < n && 0 <= s < n ==> m[r, s] == if r < s then Some(Batch(r, s)) else None
  }

  /** The cells of rows `i ..` of the table, right of the diagonal, row by row. */
  function CellsFrom(m: array2<Option<Batch>>, i: nat): (r: seq<Option<Batch>>)
    reads m
    requires m.Length0 == m.Length1
    decreases m.Length0 - i
  {
    var n := m.Length0;
    if i + 1 >= n then []
    else seq(n - i - 1, k requires 0 <= k < n - i - 1 reads m => m[i, i + 1 + k]) + CellsFrom(m, i + 1)
  }

  lemma {:induction false} CellsArePairs(m: array2<Option<Batch>>, i: nat)
    requires Filled(m, m.Length0)
    ensures CellsFrom(m, i) == Map(PairsFrom(i, m.Length0), (b: Batch) => Some(b))
    decreases m.Length0 - i
  {
    var n := m.Length0;
    var some := (b: Batch) => Some(b);
    if i + 1 < n {
      CellsArePairs(m, i + 1);
      var row := seq(n - i - 1, k requires 0 <= k < n - i - 1 => Batch(i, i + 1 + k));
      MapAppend(row, PairsFrom(i + 1, n), some);
    }
  }

  // ---------------------------------------------------------------------
  // The neighbour walk, as specification
  // ---------------------------------------------------------------------

  /** The batches resonancesFor collects for `x` from the positions below `hi`, both ends accepted. */
  function Row(mask: seq<bool>, x: nat, hi: nat): (r: seq<Batch>)
    requires x < |mask| && hi <= |mask|
    ensures forall k :: 0 <= k < |r| ==> r[k].i < |mask| && r[k].j < |mask|
  {
    if hi == 0 then []
    else Row(mask, x, hi - 1) + (if hi - 1 != x && mask[x] && mask[hi - 1] then [Ordered(x, hi - 1)] else [])
  }

  /** The astra of the batch that is not `x` (getCounterpart). */
  function Counterpart(b: Batch, x: nat): nat
  {
    if b.i == x then b.j else b.i
  }

  /** The counterparts of `x` over the batches that resonate at the harmonic (getConnectedAstras' stream). */
  function Connected(g: Graph, rs: seq<Batch>, x: nat): (r: seq<nat>)
    requires forall k :: 0 <= k < |rs| ==> rs[k].i < |g.points| && rs[k].j < |g.points|
  {
    if rs == [] then []
    else
      var b := rs[|rs| - 1];
      Connected(g, rs[..|rs| - 1], x)
      + (if g.oracle.harmonic(g.points[b.i], g.points[b.j], g.harmonic) then [Counterpart(b, x)] else [])
  }

  /** Over the collected row, the resonating counterparts are exactly the neighbours of `x` in the graph. */
  lemma {:induction false} ConnectedRowIsNeighbours(g: Graph, x: nat, hi: nat)
    requires |g.mask| == |g.points| && x < |g.points| && hi <= |g.points|
    ensures Connected(g, Row(g.mask, x, hi), x) == Neighbours(g, x, hi)
  {
    if hi > 0 {
      ConnectedRowIsNeighbours(g, x, hi - 1);
      var rs := Row(g.mask, x, hi);
      var init := Row(g.mask, x, hi - 1);
      assert Neighbours(g, x, hi) == Neighbours(g, x, hi - 1) + (if Adj(g, x, hi - 1) then [hi - 1] else []);
      if hi - 1 != x && g.mask[x] && g.mask[hi - 1] {
        var b := Ordered(x, hi - 1);
        assert rs == init + [b];
        assert rs[..|rs| - 1] == init;
        assert Counterpart(b, x) == hi - 1;
        assert g.oracle.harmonic(g.points[b.i], g.points[b.j], g.harmonic) == Adj(g, x, hi - 1);
      } else {
        assert rs == init;
        assert !Adj(g, x, hi - 1);
      }
    }
  }

  /** The patterns of the list that are isValid, in order. */
  function KeptValid(ps: seq<Pattern>): (r: seq<Pattern>)
    reads ps
    requires forall p :: p in ps ==> InRange(p.points, p.members)
    ensures forall p :: p in r ==> p in ps
  {
    if ps == [] then []
    else KeptValid(ps[..|ps| - 1]) + (if ps[|ps| - 1].IsValid() then [ps[|ps| - 1]] else [])
  }

  /** The patterns kept are exactly the isValid ones of the list. */
  lemma {:induction false} KeptValidMembers(ps: seq<Pattern>)
    requires forall p :: p in ps ==> InRange(p.points, p.members)
    ensures forall p :: p in KeptValid(ps) <==> p in ps && p.IsValid()
  {
    if ps != [] {
      var init := ps[..|ps| - 1];
      KeptValidMembers(init);
      forall p ensures p in KeptValid(ps) <==> p in ps && p.IsValid() {
        if p in ps && p != ps[|ps| - 1] {
          var k :| 0 <= k < |ps| && ps[k] == p;
          assert p == init[k];
        }
      }
    }
  }

  /** The patterns of the list that are ofHeavenSet of the charts, in order. */
  function KeptOfHeavenSet(ps: seq<Pattern>, charts: seq<Chart>): (r: seq<Pattern>)
    reads ps
    ensures forall k :: 0 <= k < |r| ==> r[k] in ps && r[k].OfHeavenSet(charts)
  {
    if ps == [] then []
    else KeptOfHeavenSet(ps[..|ps| - 1], charts) + (if ps[|ps| - 1].OfHeavenSet(charts) then [ps[|ps| - 1]] else [])
  }

  /** Every pattern of the list that is ofHeavenSet of the charts is kept. */
  lemma {:induction false} KeptOfHeavenSetComplete(ps: seq<Pattern>, charts: seq<Chart>)
    ensures forall p :: p in ps && p.OfHeavenSet(charts) ==> p in KeptOfHeavenSet(ps, charts)
  {
    if ps != [] {
      var init := ps[..|ps| - 1];
      KeptOfHeavenSetComplete(init, charts);
      forall p | p in ps && p.OfHeavenSet(charts) ensures p in KeptOfHeavenSet(ps, charts) {
        if p != ps[|ps| - 1] {
          var k :| 0 <= k < |ps| && ps[k] == p;
          assert p == init[k];
        }
      }
    }
  }

  /** The filter keeps the order: filtering a concatenation filters each part. */
  lemma {:induction false} KeptOfHeavenSetConcat(a: seq<Pattern>, b: seq<Pattern>, charts: seq<Chart>)
    ensures KeptOfHeavenSet(a + b, charts) == KeptOfHeavenSet(a, charts) + KeptOfHeavenSet(b, charts)
  {
    if b != [] {
      var init := b[..|b| - 1];
      KeptOfHeavenSetConcat(a, init, charts);
      assert (a + b)[..|a + b| - 1] == a + init;
    } else {
      assert a + b == a;
    }
  }

  /** The patterns are listed by non-increasing average strength. */
  ghost predicate ByStrength(ps: seq<Pattern>)
    reads ps
    requires forall p :: p in ps ==> ValidConfig(p.config)
  {
    forall i, j :: 0 <= i < j < |ps| ==> ps[i].AverageStrength() >= ps[j].AverageStrength()
  }

  /** A list by non-increasing strength stays so when filtered. */
  lemma {:induction false} KeptOfHeavenSetByStrength(ps: seq<Pattern>, charts: seq<Chart>)
    requires forall p :: p in ps ==> ValidConfig(p.config)
    requires ByStrength(ps)
    ensures ByStrength(KeptOfHeavenSet(ps, charts))
  {
    if ps != [] {
      var init, last := ps[..|ps| - 1], ps[|ps| - 1];
      assert ByStrength(init) by {
        forall i, j | 0 <= i < j < |init| ensures init[i].AverageStrength() >= init[j].AverageStrength() {
          assert init[i] == ps[i] && init[j] == ps[j];
        }
      }
      KeptOfHeavenSetByStrength(init, charts);
      var r' := KeptOfHeavenSet(init, charts);
      if last.OfHeavenSet(charts) {
        var r := r' + [last];
        forall i, j | 0 <= i < j < |r| ensures r[i].AverageStrength() >= r[j].AverageStrength() {
          if j < |r'| {
            assert r[i] == r'[i] && r[j] == r'[j];
          } else {
            var k :| 0 <= k < |init| && init[k] == r'[i];
            assert ps[k] == r[i] && ps[|ps| - 1] == r[j];
          }
        }
        assert KeptOfHeavenSet(ps, charts) == r;
      } else {
        assert KeptOfHeavenSet(ps, charts) == r';
      }
    }
  }

  /** The patterns of the list whose average strength is `v`, in order. */
  function WithStrength(ps: seq<Pattern>, v: real): seq<Pattern>
    reads ps
    requires forall p :: p in ps ==> ValidConfig(p.config)
  {
    if ps == [] then []
    else WithStrength(ps[..|ps| - 1], v) + (if ps[|ps| - 1].AverageStrength() == v then [ps[|ps| - 1]] else [])
  }

  /**
   * What findPatterns returns for the gathered patterns: those that are
   * isValid, by non-increasing average strength, equal strengths in the
   * order they were gathered.
   */
  function FindResult(gathered: seq<Pattern>): (r: seq<Pattern>)
    reads gathered
    requires forall p :: p in gathered ==> ValidConfig(p.config) && InRange(p.points, p.members)
    ensures forall p :: p in r ==> p in gathered
  {
    var kept := KeptValid(gathered);
    assert forall p :: p in kept ==> p in gathered && ValidConfig(p.config);
    StrengthOrder(kept);
    Map(SortBy(Keyed(kept), StrengthKey), Second)
  }

  /**
   * FindResult is the isValid patterns, each as often as gathered, by
   * non-increasing average strength, and those of equal strength in the
   * order they were gathered.
   */
  lemma FindResultFacts(gathered: seq<Pattern>)
    requires forall p :: p in gathered ==> ValidConfig(p.config) && InRange(p.points, p.members)
    ensures var r := FindResult(gathered);
      (forall p :: p in r <==> p in gathered && p.IsValid())
      && multiset(r) == multiset(KeptValid(gathered))
      && (forall i, j :: 0 <= i < j < |r| ==> r[i].AverageStrength() >= r[j].AverageStrength())
      && forall v :: WithStrength(r, v) == WithStrength(KeptValid(gathered), v)
  {
    var kept := KeptValid(gathered);
    KeptValidMembers(gathered);
    StrengthOrder(kept);
    StrengthSortStable(kept);
    var r := FindResult(gathered);
    forall p ensures p in r <==> p in kept {
      assert p in r <==> p in multiset(r);
    }
  }

  /** The key of the strength sort: the negated average strength, so that the ascending sort is the reversed one. */
  function StrengthKey(e: (real, Pattern)): real
  {
    e.0
  }

  function Second(e: (real, Pattern)): Pattern
  {
    e.1
  }

  /** The index part of the constructor: each chart gets a new inner map of running numbers, replacing any earlier one. */
  method BuildIndex(charts: seq<Chart>) returns (idx: map<Chart, map<Astra, nat>>)
    ensures idx == old(IndexOf(charts))
  {
    idx := map[];
    var counter := 0;
    var c := 0;
    while c < |charts|
      invariant 0 <= c <= |charts|
      invariant idx == old(IndexOf(charts[..c])) && counter == old(|Flattened(charts[..c])|)
    {
      var chart := charts[c];
      var astras := chart.astras;
      assert old(chart.astras) == astras;
      assert charts[..c + 1][..c] == charts[..c] && charts[..c + 1][c] == chart;
      var inner := NumberAstras(astras, counter);
      idx := idx[chart := inner];
      assert old(IndexOf(charts[..c + 1])) == old(IndexOf(charts[..c]))[chart := InnerIndex(astras, old(|Flattened(charts[..c])|))];
      assert old(Flattened(charts[..c + 1])) == old(Flattened(charts[..c])) + astras;
      counter := counter + |astras|;
      c := c + 1;
    }
    assert charts[..c] == charts;
  }

  /** The inner loop of the index: the astras of one chart numbered on from `base`. */
  method NumberAstras(astras: seq<Astra>, base: nat) returns (inner: map<Astra, nat>)
    ensures inner == InnerIndex(astras, base)
  {
    inner := map[];
    var counter := base;
    for q := 0 to |astras|
      invariant inner == InnerIndex(astras[..q], base) && counter == base + q
    {
      assert astras[..q + 1][..q] == astras[..q];
      inner := inner[astras[q] := counter];
      counter := counter + 1;
    }
    assert astras[..|astras|] == astras;
  }

  /** The table part of the constructor: a batch for every cell [i][j] with i < j. */
  method BuildTable(n: nat) returns (m: array2<Option<Batch>>)
    ensures fresh(m) && Filled(m, n)
  {
    m := new Option<Batch>[n, n]((r, s) => None);
    var i := 0;
    while i < n - 1
      invariant 0 <= i && (n > 0 ==> i <= n - 1)
      invariant forall r, s :: 0 <= r < n && 0 <= s < n ==> m[r, s] == if r < s && r < i then Some(Batch(r, s)) else None
    {
      var j := i + 1;
      while j < n
        invariant i + 1 <= j <= n
        invariant forall r, s :: 0 <= r < n && 0 <= s < n ==>
          m[r, s] == if r < s && (r < i || (r == i && s < j)) then Some(Batch(r, s)) else None
      {
        m[i, j] := Some(Batch(i, j));
        j := j + 1;
      }
      i := i + 1;
    }
  }

  /**
   * The forEach(addAllAstras) step of gatherResonants: the pattern takes in
   * the astras of a sub-pattern, whose members are the marks the sub-search
   * added.
   */
  method Absorb(p: Pattern, sub: Pattern, ghost entry: seq<bool>, ghost before: seq<bool>, ghost after: seq<bool>)
    requires p.Valid() && sub.Valid() && sub.points == p.points && Grown(entry, before) && Grown(before, after)
    requires Distinguished(p.points) ==> MemberSet(p.members) == Marked(before) - Marked(entry)
    requires Distinguished(p.points) ==> MemberSet(sub.members) == Marked(after) - Marked(before)
    modifies p
    ensures p.Valid()
    ensures p.members == AddedMembers(p.points, old(p.members), old(sub.members))
    ensures Distinguished(p.points) ==> MemberSet(p.members) == Marked(after) - Marked(entry)
  {
    ghost var members := p.members;
    ghost var incoming := sub.members;
    p.AddAllAstras(sub);
    if Distinguished(p.points) {
      AddedMembersUnion(p.points, members, incoming);
      MarkedSplit(entry, before, after);
    }
  }

  class AstroMatrix {
    /** The charts, in the order given. */
    const heavens: seq<Chart>
    /** The astras of all charts, chart after chart. */
    const allAstras: seq<Astra>
    /** Name, chart and position of each astra when the matrix was built. */
    const points: seq<Point>
    /** From chart and astra to the position in `allAstras`. */
    const index: map<Chart, map<Astra, nat>>
    /** The triangular table: a batch in every cell right of the diagonal. */
    const matrix: array2<Option<Batch>>
    /** What the batches answer about resonance (ResonanceBatch, not part of this model). */
    const oracle: Oracle
    /** The orb settings the patterns of this matrix use. */
    const config: Config

    ghost predicate Valid()
      reads this, matrix
    {
      |allAstras| == |points| && Filled(matrix, |points|)
      && forall c, a :: c in index && a in index[c] ==> index[c][a] < |points|
    }

    /** The constructor: the flat astra list, the index and the table of all pairs. */
    constructor (charts: seq<Chart>, oracle: Oracle, config: Config)
      ensures Valid()
      ensures heavens == charts && allAstras == old(Flattened(charts)) && points == old(Snap(Flattened(charts)))
      ensures index == old(IndexOf(charts))
      ensures this.oracle == oracle && this.config == config
    {
      var flat := Flattened(charts);
      var snap := Snap(flat);
      var idx := BuildIndex(charts);
      var table := BuildTable(|flat|);
      heavens := charts;
      allAstras := flat;
      points := snap;
      this.oracle := oracle;
      this.config := config;
      index := idx;
      matrix := table;
    }

    /** astraIndex: the astra's position through its chart's index, or -1 when it is not found. */
    function AstraIndex(a: Astra): (r: int)
      reads this, matrix, a
      requires Valid()
      ensures -1 <= r < |points|
    {
      var c := a.heaven;
      if c != null && c in index && a in index[c] then index[c][a] else -1
    }

    /**
     * getResonanceFor: IllegalArgument for an astra paired with itself or
     * one that is not found, else the cell of the two positions in table
     * order (empty where both astras have one position).
     */
    function GetResonanceFor(a: Astra, b: Astra): (r: Result<Option<Batch>>)
      reads this, matrix, a, b
      requires Valid()
      ensures r.Err? <==> a == b || AstraIndex(a) == -1 || AstraIndex(b) == -1
      ensures r.Err? ==> r.error == IllegalArgument
      ensures r.Ok? && AstraIndex(a) != AstraIndex(b) ==> r.value == Some(Ordered(AstraIndex(a), AstraIndex(b)))
      ensures r.Ok? && AstraIndex(a) == AstraIndex(b) ==> r.value == None
    {
      if a == b then Err(IllegalArgument)
      else
        var iA, iB := AstraIndex(a), AstraIndex(b);
        if iA == -1 || iB == -1 then Err(IllegalArgument)
        else if iA < iB then Ok(matrix[iA, iB])
        else Ok(matrix[iB, iA])
    }

    /** inResonance: the exact test of the pair's batch; the lookup's failure, or a missing batch, is an error. */
    function InResonance(a: Astra, b: Astra, harmonic: int): (r: Result<bool>)
      reads this, matrix, a, b
      requires Valid()
      ensures r.Ok? <==> GetResonanceFor(a, b).Ok? && GetResonanceFor(a, b).value.Some?
      ensures r.Ok? ==> var bt := GetResonanceFor(a, b).value.value;
        r.value == oracle.exact(points[bt.i], points[bt.j], harmonic)
    {
      match GetResonanceFor(a, b)
      case Err(e) => Err(e)
      case Ok(None) => Err(NullPointer)
      case Ok(Some(bt)) => Ok(oracle.exact(points[bt.i], points[bt.j], harmonic))
    }

    /** stream: the cells right of the diagonal, row by row. */
    function Stream(): (r: seq<Option<Batch>>)
      reads this, matrix
      requires Valid()
      ensures r == Map(PairsFrom(0, |points|), (b: Batch) => Some(b))
    {
      CellsArePairs(matrix, 0);
      CellsFrom(matrix, 0)
    }

    /** The graph a search at `harmonic` over the accepted astras walks. */
    function GraphOf(harmonic: int, mask: seq<bool>): Graph
    {
      Graph(points, oracle, mask, harmonic)
    }

    /**
     * resonancesFor: the batches of `x` with every other astra, both
     * accepted: first down column `x` (rows 0 .. x-1), then, turning at the
     * diagonal, along row `x`.
     */
    method ResonancesFor(x: nat, mask: seq<bool>) returns (list: seq<Batch>)
      requires Valid() && x < |points| && |mask| == |points|
      ensures list == Row(mask, x, |points|)
    {
      var n := |points|;
      list := [];
      var i, j := 0, x;
      var turning := false;
      while i + j < n + x - 1
        invariant !turning ==> j == x && 0 <= i <= x && list == Row(mask, x, i)
        invariant turning ==> i == x && x <= j < n && list == Row(mask, x, j + 1)
        decreases n + x - i - j, if turning then 0 else 1
      {
        if turning {
          j := j + 1;
        }
        if i == j {
          turning := true;
          continue;
        }
        if mask[i] && mask[j] {
          list := list + [matrix[i, j].value];
        }
        if !turning {
          i := i + 1;
        }
      }
    }

    /** getConnectedAstras: the counterparts of `x` over its collected batches that resonate at the harmonic. */
    method GetConnectedAstras(x: nat, harmonic: int, acceptable: seq<bool>) returns (connected: seq<nat>)
      requires Valid() && x < |points| && |acceptable| == |points|
      ensures connected == Neighbours(GraphOf(harmonic, acceptable), x, |points|)
    {
      var rs := ResonancesFor(x, acceptable);
      ConnectedRowIsNeighbours(GraphOf(harmonic, acceptable), x, |points|);
      connected := Connected(GraphOf(harmonic, acceptable), rs, x);
    }

    /** getAcceptanceMask: the astras whose chart is among the given ones. */
    method GetAcceptanceMask(charts: seq<Chart>) returns (mask: array<bool>)
      requires |allAstras| == |points|
      ensures fresh(mask) && mask.Length == |points|
      ensures forall i :: 0 <= i < |points| ==> (mask[i] <==> allAstras[i].heaven in charts)
    {
      mask := new bool[|allAstras|](i => false);
      for i := 0 to |allAstras|
        invariant forall k :: 0 <= k < |allAstras| ==> (mask[k] <==> k < i && allAstras[k].heaven in charts)
      {
        if allAstras[i].heaven in charts {
          mask[i] := true;
        }
      }
    }

    /**
     * gatherResonants: marks `x`, starts a pattern with it, and for each
     * connected astra not yet marked gathers that astra's pattern
     * recursively and adds all its astras. The astras it marks are the ones
     * reachable from `x` that were unmarked, and the marks they leave are
     * closed under adjacency; for distinct astras they are the pattern's
     * members.
     */
    method GatherResonants(x: nat, harmonic: int, analyzed: array<bool>, acceptable: seq<bool>) returns (p: Pattern)
      requires Valid() && x < |points| && analyzed.Length == |points| && |acceptable| == |points|
      requires !analyzed[x] && acceptable[x]
      modifies analyzed
      decreases Unmarked(analyzed[..]), 1
      ensures fresh(p) && p.Valid()
      ensures p.harmonic == harmonic && p.points == points && p.oracle == oracle && p.config == config
      ensures SearchedFrom(GraphOf(harmonic, acceptable), x, old(analyzed[..]), analyzed[..])
      ensures Distinguished(points) ==> MemberSet(p.members) == Marked(analyzed[..]) - Marked(old(analyzed[..]))
    {
      ghost var g := GraphOf(harmonic, acceptable);
      ghost var entry := analyzed[..];
      var connected;
      p, connected := StartGather(x, harmonic, analyzed, acceptable);
      SearchStarts(g, x, entry, connected);
      var k := 0;
      while k < |connected|
        invariant 0 <= k <= |connected|
        invariant p.Valid() && fresh(p)
        invariant SearchingFrom(g, x, entry, analyzed[..], connected, k)
        invariant Distinguished(points) ==> MemberSet(p.members) == Marked(analyzed[..]) - Marked(entry)
      {
        GatherNeighbour(p, x, harmonic, connected, k, analyzed, acceptable, entry);
        k := k + 1;
      }
      SearchEnds(g, x, entry, analyzed[..]);
    }

    /** The start of gatherResonants: `x` marked, a pattern of `x` alone, and the astras connected to it. */
    method StartGather(x: nat, harmonic: int, analyzed: array<bool>, acceptable: seq<bool>) returns (p: Pattern, connected: seq<nat>)
      requires Valid() && x < |points| && analyzed.Length == |points| && |acceptable| == |points|
      modifies analyzed
      ensures analyzed[..] == old(analyzed[..])[x := true]
      ensures fresh(p) && p.Valid() && p.members == [x]
      ensures p.harmonic == harmonic && p.points == points && p.oracle == oracle && p.config == config
      ensures connected == Neighbours(GraphOf(harmonic, acceptable), x, |points|)
    {
      analyzed[x] := true;
      p := new Pattern(harmonic, points, oracle, config);
      p.AddAstra(x);
      assert p.members == [x];
      connected := GetConnectedAstras(x, harmonic, acceptable);
    }

    /**
     * One element of gatherResonants' stream over the connected astras: an
     * astra not yet marked is gathered recursively and its pattern's astras
     * are added to `p`; a marked one is skipped.
     */
    method GatherNeighbour(p: Pattern, x: nat, harmonic: int, connected: seq<nat>, k: nat, analyzed: array<bool>,
                           acceptable: seq<bool>, ghost entry: seq<bool>)
      requires Valid() && analyzed.Length == |points| && |acceptable| == |points|
      requires connected == Neighbours(GraphOf(harmonic, acceptable), x, |points|) && k < |connected|
      requires p.Valid() && p.harmonic == harmonic && p.points == points && p.oracle == oracle && p.config == config
      requires SearchingFrom(GraphOf(harmonic, acceptable), x, entry, analyzed[..], connected, k)
      requires Distinguished(points) ==> MemberSet(p.members) == Marked(analyzed[..]) - Marked(entry)
      modifies p, analyzed
      decreases Unmarked(entry), 0
      ensures p.Valid()
      ensures SearchingFrom(GraphOf(harmonic, acceptable), x, entry, analyzed[..], connected, k + 1)
      ensures Distinguished(points) ==> MemberSet(p.members) == Marked(analyzed[..]) - Marked(entry)
    {
      ghost var g := GraphOf(harmonic, acceptable);
      var a := connected[k];
      if !analyzed[a] {
        ghost var before := analyzed[..];
        var sub := GatherResonants(a, harmonic, analyzed, acceptable);
        SearchRecurses(g, x, entry, before, analyzed[..], connected, k);
        Absorb(p, sub, entry, before, analyzed[..]);
      } else {
        SearchSkips(g, x, entry, analyzed[..], connected, k);
      }
    }

    /** Patterns of this matrix at the harmonic, each consistent. */
    ghost predicate OwnPatterns(ps: seq<Pattern>, harmonic: int)
      reads ps
    {
      forall p :: p in ps ==>
        p.Valid() && p.harmonic == harmonic && p.points == points && p.oracle == oracle && p.config == config
    }

    /** One gathered pattern per component, whose members for distinct astras are that component. */
    ghost predicate Gathered(harmonic: int, gathered: seq<Pattern>, comps: seq<set<nat>>)
      reads gathered
    {
      OwnPatterns(gathered, harmonic) && |gathered| == |comps|
      && (Distinguished(points) ==> forall q :: 0 <= q < |gathered| ==> MemberSet(gathered[q].members) == comps[q])
    }

    /** Adding a pattern for a new component keeps Gathered. */
    lemma GatheredGrows(harmonic: int, gathered: seq<Pattern>, comps: seq<set<nat>>, p: Pattern, comp: set<nat>)
      requires Gathered(harmonic, gathered, comps)
      requires p.Valid() && p.harmonic == harmonic && p.points == points && p.oracle == oracle && p.config == config
      requires Distinguished(points) ==> MemberSet(p.members) == comp
      ensures Gathered(harmonic, gathered + [p], comps + [comp])
    {
      var gs, cs := gathered + [p], comps + [comp];
      forall q | 0 <= q < |gs| && Distinguished(points) ensures MemberSet(gs[q].members) == cs[q] {
        if q < |gathered| {
          assert gs[q] == gathered[q] && cs[q] == comps[q];
        }
      }
    }

    /** One accepted, unanalysed astra of gatherPatterns' sweep: the pattern gathered from it and its component. */
    method GatherComponent(i: nat, harmonic: int, analyzed: array<bool>, acceptable: seq<bool>, gathered: seq<Pattern>,
                           ghost comps: seq<set<nat>>, ghost roots: seq<nat>) returns (p: Pattern, ghost comp: set<nat>)
      requires Valid() && |acceptable| == |points| && analyzed.Length == |points|
      requires Sweeping(GraphOf(harmonic, acceptable), i, analyzed[..], comps, roots)
      requires i < |points| && acceptable[i] && !analyzed[i]
      requires Gathered(harmonic, gathered, comps)
      modifies analyzed
      ensures fresh(p)
      ensures Sweeping(GraphOf(harmonic, acceptable), i + 1, analyzed[..], comps + [comp], roots + [i])
      ensures Gathered(harmonic, gathered + [p], comps + [comp])
    {
      ghost var before := analyzed[..];
      ghost var wasGathered := Gathered(harmonic, gathered, comps);
      p := GatherResonants(i, harmonic, analyzed, acceptable);
      assert wasGathered == Gathered(harmonic, gathered, comps);
      comp := Marked(analyzed[..]) - Marked(before);
      SweepFound(GraphOf(harmonic, acceptable), i, before, analyzed[..], comps, roots);
      GatheredGrows(harmonic, gathered, comps, p, comp);
    }

    /**
     * The first stage of findPatterns: for each accepted astra not yet
     * analysed, in order, the pattern gathered from it. The searches split
     * the accepted astras into disjoint components, one per pattern; for
     * distinct astras each pattern's members are its component.
     */
    method GatherAll(harmonic: int, acceptable: seq<bool>) returns (gathered: seq<Pattern>, ghost comps: seq<set<nat>>, ghost roots: seq<nat>)
      requires Valid() && |acceptable| == |points|
      ensures Sweeping(GraphOf(harmonic, acceptable), |points|, acceptable, comps, roots)
      ensures Gathered(harmonic, gathered, comps)
    {
      ghost var g := GraphOf(harmonic, acceptable);
      var analyzed := new bool[|points|](i => false);
      gathered, comps, roots := [], [], [];
      assert Covered(analyzed[..], []);
      for i := 0 to |points|
        invariant Sweeping(g, i, analyzed[..], comps, roots)
        invariant Gathered(harmonic, gathered, comps)
      {
        if acceptable[i] && !analyzed[i] {
          var p;
          ghost var comp;
          p, comp := GatherComponent(i, harmonic, analyzed, acceptable, gathered, comps, roots);
          gathered, comps, roots := gathered + [p], comps + [comp], roots + [i as nat];
        } else {
          SweepSkips(g, i, analyzed[..], comps, roots);
        }
      }
      SweepDone(g, analyzed[..], comps, roots);
    }

    /**
     * findPatterns: the patterns gathered over the astras of the active
     * charts, those that are isValid, by non-increasing average strength
     * (a stable sort, so equal strengths keep the order of discovery).
     */
    method FindPatterns(harmonic: int, activeCharts: seq<Chart>)
      returns (result: seq<Pattern>, gathered: seq<Pattern>, mask: seq<bool>, ghost comps: seq<set<nat>>, ghost roots: seq<nat>)
      requires Valid() && ValidConfig(config)
      ensures mask == Accepted(activeCharts)
      ensures Sweeping(GraphOf(harmonic, mask), |points|, mask, comps, roots)
      ensures Gathered(harmonic, gathered, comps)
      ensures result == FindResult(gathered)
      ensures OwnPatterns(result, harmonic) && forall p :: p in result ==> p.IsValid()
      ensures multiset(result) == multiset(KeptValid(gathered))
      ensures forall i, j :: 0 <= i < j < |result| ==> result[i].AverageStrength() >= result[j].AverageStrength()
    {
      var acceptable := GetAcceptanceMask(activeCharts);
      mask := acceptable[..];
      assert mask == Accepted(activeCharts);
      gathered, comps, roots := GatherAll(harmonic, mask);
      assert Accepted(activeCharts) == mask;
      result := ValidByStrength(harmonic, gathered);
    }

    /** The second stage of findPatterns: the isValid patterns, strongest first. */
    method ValidByStrength(harmonic: int, gathered: seq<Pattern>) returns (result: seq<Pattern>)
      requires ValidConfig(config) && OwnPatterns(gathered, harmonic)
      ensures result == FindResult(gathered)
      ensures OwnPatterns(result, harmonic) && forall p :: p in result ==> p.IsValid()
      ensures multiset(result) == multiset(KeptValid(gathered))
      ensures forall i, j :: 0 <= i < j < |result| ==> result[i].AverageStrength() >= result[j].AverageStrength()
    {
      var kept := KeptValid(gathered);
      result := Map(SortBy(Keyed(kept), StrengthKey), Second);
      KeptValidMembers(gathered);
      StrengthOrder(kept);
    }

    /**
     * The inner loop of heavenCombinations: the charts at the set bits of the
     * counter, lowest bit first, at most the first two in aspects mode.
     */
    method Cypher(i: nat, forAspects: bool) returns (next: seq<Chart>)
      requires 1 <= i < Pow2(|heavens|)
      ensures next == Combination(heavens, i, forAspects)
    {
      next := [];
      var cypher, n := i, 0;
      WidthBound(i, |heavens|);
      AppendEmpty([], Pick(heavens, BitIndices(i, 0)));
      while cypher > 0
        invariant n + Width(cypher) <= |heavens| && (forAspects ==> |next| <= 2)
        invariant Truncate(next + Pick(heavens, BitIndices(cypher, n)), forAspects) == Combination(heavens, i, forAspects)
      {
        assert Width(cypher) == 1 + Width(cypher / 2);
        ghost var before := next;
        if cypher % 2 == 1 && (!forAspects || |next| < 2) {
          next := next + [heavens[n]];
        }
        CypherStep(heavens, before, next, cypher, n, forAspects);
        cypher, n := cypher / 2, n + 1;
      }
      assert BitIndices(cypher, n) == [];
      AppendEmpty(next, []);
    }

    /**
     * heavenCombinations: for each counter 1 .. 2^K - 1 the charts at its set
     * bits (at most the first two in aspects mode), sorted by size.
     */
    method HeavenCombinations(forAspects: bool) returns (combinations: seq<seq<Chart>>)
      ensures combinations == SortBy(Unsorted(heavens, forAspects), Size)
    {
      var bound := Pow2(|heavens|);
      ghost var all := Unsorted(heavens, forAspects);
      var unsorted: seq<seq<Chart>> := [];
      var i := 1;
      while i < bound
        invariant 1 <= i <= bound && unsorted == all[..i - 1]
      {
        var next := Cypher(i, forAspects);
        UnsortedStep(heavens, forAspects, i);
        unsorted := unsorted + [next];
        i := i + 1;
      }
      assert unsorted == all;
      combinations := SortBy(unsorted, Size);
    }

    /** The acceptance mask of the charts, as a value. */
    function Accepted(charts: seq<Chart>): (r: seq<bool>)
      reads allAstras
      requires |allAstras| == |points|
      ensures |r| == |points| && forall i :: 0 <= i < |points| ==> (r[i] <==> allAstras[i].heaven in charts)
    {
      seq(|allAstras|, i requires 0 <= i < |allAstras| reads allAstras => allAstras[i].heaven in charts)
    }

    /**
     * What findPatterns found at a harmonic over the astras its mask
     * accepts: the sweep split them into the components `comps`, one
     * gathered pattern each, and the result is FindResult of the gathered
     * patterns.
     */
    ghost predicate FoundAt(f: Finding, harmonic: int)
      reads f.gathered
    {
      ValidConfig(config) && |f.mask| == |points|
      && Sweeping(GraphOf(harmonic, f.mask), |points|, f.mask, f.comps, f.roots)
      && Collected(f, harmonic)
    }

    /** The patterns of a finding: one gathered per component, and the result FindResult of them. */
    ghost predicate Collected(f: Finding, harmonic: int)
      reads f.gathered
    {
      ValidConfig(config) && Gathered(harmonic, f.gathered, f.comps) && f.result == FindResult(f.gathered)
    }

    /** Every finding was made with the acceptance mask of the charts. */
    ghost predicate MaskedBy(found: map<int, Finding>, charts: seq<Chart>)
      reads allAstras
    {
      |allAstras| == |points| && forall h :: h in found ==> found[h].mask == Accepted(charts)
    }

    /**
     * One harmonic of getPatternAnalysis: the patterns findPatterns finds at
     * it that are ofHeavenSet of the charts are appended to its list.
     */
    method AnalyseHarmonic(anal: PatternAnalysis, charts: seq<Chart>, harmonic: int,
                           ghost prior: map<int, Finding>, ghost kept: map<int, seq<Pattern>>, ghost seen: set<Pattern>)
      returns (ghost found: Finding)
      requires Valid() && ValidConfig(config) && anal.Valid()
      requires StillFound(prior, kept, charts, harmonic, seen) && MaskedBy(prior, charts)
      modifies anal
      ensures StillFound(prior, kept, charts, harmonic, seen) && MaskedBy(prior, charts)
      ensures anal.Valid() && FoundAt(found, harmonic) && found.mask == Accepted(charts)
      ensures anal.GetPatternsFor(harmonic) == old(anal.GetPatternsFor(harmonic)) + KeptOfHeavenSet(found.result, charts)
      ensures forall h :: h != harmonic ==> anal.GetPatternsFor(h) == old(anal.GetPatternsFor(h))
    {
      var result, gathered;
      result, gathered, found := FindFinding(harmonic, charts);
      KeepFound(anal, result, charts, harmonic, found, prior, kept, seen);
    }

    /** The ofHeavenSet part of one harmonic's result added to the analysis; the records of the matrix stay as they were. */
    method KeepFound(anal: PatternAnalysis, result: seq<Pattern>, charts: seq<Chart>, harmonic: int, ghost found: Finding,
                     ghost prior: map<int, Finding>, ghost kept: map<int, seq<Pattern>>, ghost seen: set<Pattern>)
      requires |allAstras| == |points| && ValidConfig(config) && anal.Valid() && forall p :: p in result ==> p.harmonic == harmonic
      requires FoundAt(found, harmonic) && found.mask == Accepted(charts) && found.result == result
      requires StillFound(prior, kept, charts, harmonic, seen) && MaskedBy(prior, charts)
      modifies anal
      ensures StillFound(prior, kept, charts, harmonic, seen) && MaskedBy(prior, charts)
      ensures anal.Valid() && FoundAt(found, harmonic) && found.mask == Accepted(charts)
      ensures anal.GetPatternsFor(harmonic) == old(anal.GetPatternsFor(harmonic)) + KeptOfHeavenSet(result, charts)
      ensures forall h :: h != harmonic ==> anal.GetPatternsFor(h) == old(anal.GetPatternsFor(h))
    {
      ghost var wasCollected := Collected(found, harmonic);
      ghost var wasMasked := found.mask == Accepted(charts);
      ghost var wasFound := StillFound(prior, kept, charts, harmonic, seen);
      ghost var wasPrior := MaskedBy(prior, charts);
      AddOfHeavenSet(anal, result, charts, harmonic);
      assert wasCollected == Collected(found, harmonic);
      assert wasMasked == (found.mask == Accepted(charts));
      assert wasFound == StillFound(prior, kept, charts, harmonic, seen);
      assert wasPrior == MaskedBy(prior, charts);
    }

    /** findPatterns, with the record of what it found. */
    method FindFinding(harmonic: int, charts: seq<Chart>) returns (result: seq<Pattern>, gathered: seq<Pattern>, ghost found: Finding)
      requires Valid() && ValidConfig(config)
      ensures FoundAt(found, harmonic) && found.mask == Accepted(charts) && found.result == result && found.gathered == gathered
      ensures forall p :: p in result ==> p.harmonic == harmonic
    {
      var mask;
      ghost var comps, roots;
      result, gathered, mask, comps, roots := FindPatterns(harmonic, charts);
      found := Finding(result, gathered, mask, comps, roots);
    }

    /**
     * getPatternAnalysis: for each harmonic 1 .. edge, the patterns
     * findPatterns finds over the charts' astras, those that are ofHeavenSet
     * of the charts, in their order.
     */
    method GetPatternAnalysis(charts: seq<Chart>, edge: int) returns (anal: PatternAnalysis, ghost found: map<int, Finding>)
      requires Valid() && ValidConfig(config)
      ensures fresh(anal) && AnalysisOf(charts, edge, anal, found) && MaskedBy(found, charts)
    {
      anal := new PatternAnalysis();
      found := map[];
      ghost var kept: map<int, seq<Pattern>> := map[];
      ghost var seen: set<Pattern> := {};
      var h := 1;
      while h <= edge
        invariant 1 <= h <= (if edge < 1 then 1 else edge + 1)
        invariant fresh(anal) && anal.Valid()
        invariant StillFound(found, kept, charts, h, seen) && MaskedBy(found, charts)
        invariant ListedBelow(anal, kept, h)
      {
        found, kept, seen := AnalyseNext(anal, charts, h, found, kept, seen);
        h := h + 1;
      }
      forall k | 1 <= k <= edge
        ensures k in found && FoundAt(found[k], k) && anal.GetPatternsFor(k) == KeptOfHeavenSet(found[k].result, charts)
      {
        assert 1 <= k < h;
      }
    }

    /** The lists of the harmonics below `h` are those recorded in `kept`; the others are empty. */
    ghost predicate ListedBelow(anal: PatternAnalysis, kept: map<int, seq<Pattern>>, h: int)
      reads anal
    {
      (forall k :: 1 <= k < h ==> k in kept && anal.GetPatternsFor(k) == kept[k])
      && forall k :: !(1 <= k < h) ==> anal.GetPatternsFor(k) == []
    }

    /** One round of getPatternAnalysis' loop, with the records of what it found. */
    method AnalyseNext(anal: PatternAnalysis, charts: seq<Chart>, h: int, ghost found: map<int, Finding>,
                       ghost kept: map<int, seq<Pattern>>, ghost seen: set<Pattern>)
      returns (ghost found': map<int, Finding>, ghost kept': map<int, seq<Pattern>>, ghost seen': set<Pattern>)
      requires Valid() && ValidConfig(config) && anal.Valid() && 1 <= h
      requires StillFound(found, kept, charts, h, seen) && ListedBelow(anal, kept, h) && MaskedBy(found, charts)
      modifies anal
      ensures anal.Valid()
      ensures StillFound(found', kept', charts, h + 1, seen') && ListedBelow(anal, kept', h + 1) && MaskedBy(found', charts)
    {
      assert anal.GetPatternsFor(h) == [];
      label Before:
      ghost var result := AnalyseHarmonic(anal, charts, h, found, kept, seen);
      FoundGrows(found, kept, charts, h, seen, result);
      found', kept' := found[h := result], kept[h := KeptOfHeavenSet(result.result, charts)];
      seen' := seen + (set p | p in result.gathered) + (set p | p in result.result);
      assert anal.GetPatternsFor(h) == [] + KeptOfHeavenSet(result.result, charts);
      forall k | 1 <= k < h + 1 ensures k in kept' && anal.GetPatternsFor(k) == kept'[k] {
        if k < h {
          assert anal.GetPatternsFor(k) == old@Before(anal.GetPatternsFor(k)) == kept[k];
        }
      }
      forall k | !(1 <= k < h + 1) ensures anal.GetPatternsFor(k) == [] {
        assert anal.GetPatternsFor(k) == old@Before(anal.GetPatternsFor(k));
      }
    }

    /**
     * What getPatternAnalysis promises: for each harmonic 1 .. edge the
     * patterns findPatterns found there (`found`) that are ofHeavenSet of the
     * charts, in their order; no patterns at any other harmonic.
     */
    ghost predicate AnalysisOf(charts: seq<Chart>, edge: int, anal: PatternAnalysis, found: map<int, Finding>)
      reads anal, Recorded(found)
    {
      anal.Valid()
      && (forall h :: 1 <= h <= edge ==>
            h in found && FoundAt(found[h], h) && anal.GetPatternsFor(h) == KeptOfHeavenSet(found[h].result, charts))
      && forall h :: !(1 <= h <= edge) ==> anal.GetPatternsFor(h) == []
    }

    /**
     * What getPatternAnalysis lists at a harmonic 1 .. edge: exactly the
     * patterns gathered there that are isValid and ofHeavenSet of the charts,
     * strongest first.
     */
    lemma AnalysisContents(charts: seq<Chart>, edge: int, anal: PatternAnalysis, found: map<int, Finding>, h: int)
      requires AnalysisOf(charts, edge, anal, found) && 1 <= h <= edge
      ensures forall p :: p in anal.GetPatternsFor(h) <==> p in found[h].gathered && p.IsValid() && p.OfHeavenSet(charts)
      ensures forall p :: p in anal.GetPatternsFor(h) ==> p.config == config && ValidConfig(p.config)
      ensures var ps := anal.GetPatternsFor(h);
        forall i, j :: 0 <= i < j < |ps| ==> ps[i].AverageStrength() >= ps[j].AverageStrength()
    {
      var f := found[h];
      FindResultFacts(f.gathered);
      KeptOfHeavenSetComplete(f.result, charts);
      KeptOfHeavenSetByStrength(f.result, charts);
    }

    /**
     * The results recorded for the harmonics 1 .. h - 1, all among the
     * patterns `seen`, still hold, and `kept` holds their
     * ofHeavenSet patterns.
     */
    ghost predicate StillFound(found: map<int, Finding>, kept: map<int, seq<Pattern>>, charts: seq<Chart>, h: int, seen: set<Pattern>)
      reads seen
    {
      forall k :: 1 <= k < h ==>
        k in found && k in kept && (forall p :: p in found[k].gathered ==> p in seen) && (forall p :: p in found[k].result ==> p in seen)
        && FoundAt(found[k], k) && kept[k] == KeptOfHeavenSet(found[k].result, charts)
    }

    /** Recording the result of harmonic `h` extends StillFound to `h + 1`. */
    lemma FoundGrows(found: map<int, Finding>, kept: map<int, seq<Pattern>>, charts: seq<Chart>, h: int, seen: set<Pattern>, result: Finding)
      requires StillFound(found, kept, charts, h, seen) && FoundAt(result, h)
      ensures StillFound(found[h := result], kept[h := KeptOfHeavenSet(result.result, charts)], charts, h + 1,
                         seen + (set p | p in result.gathered) + (set p | p in result.result))
    {
      var found', kept' := found[h := result], kept[h := KeptOfHeavenSet(result.result, charts)];
      var seen' := seen + (set p | p in result.gathered) + (set p | p in result.result);
      forall k | 1 <= k < h + 1
        ensures k in found' && k in kept'
                && (forall p :: p in found'[k].gathered ==> p in seen') && (forall p :: p in found'[k].result ==> p in seen')
                && FoundAt(found'[k], k) && kept'[k] == KeptOfHeavenSet(found'[k].result, charts)
      {
        if k < h {
          assert found'[k] == found[k] && kept'[k] == kept[k];
        }
      }
    }
  }

  /**
   * The forEach(addPattern) step of getPatternAnalysis: the patterns of the
   * harmonic that are ofHeavenSet of the charts are appended to its list.
   */
  method AddOfHeavenSet(anal: PatternAnalysis, ps: seq<Pattern>, charts: seq<Chart>, harmonic: int)
    requires anal.Valid() && forall p :: p in ps ==> p.harmonic == harmonic
    modifies anal
    ensures anal.Valid()
    ensures anal.GetPatternsFor(harmonic) == old(anal.GetPatternsFor(harmonic)) + KeptOfHeavenSet(ps, charts)
    ensures forall h :: h != harmonic ==> anal.GetPatternsFor(h) == old(anal.GetPatternsFor(h))
  {
    ghost var start, lists := anal.GetPatternsFor(harmonic), anal.listMap;
    var kept := KeptOfHeavenSet(ps, charts);
    assert start == if harmonic in lists then lists[harmonic] else [];
    for j := 0 to |kept|
      invariant anal.Valid()
      invariant anal.listMap == if j == 0 then lists else lists[harmonic := start + kept[..j]]
    {
      assert kept[j] in ps && kept[..j + 1] == kept[..j] + [kept[j]];
      assert start + kept[..j + 1] == start + kept[..j] + [kept[j]];
      assert j == 0 <==> kept[..j] == [];
      AddKept(anal, kept[j], lists, start, kept[..j]);
    }
    assert kept[..|kept|] == kept;
  }

  /** One addPattern of that loop: the list of the harmonic, created if absent, grows by the pattern. */
  method AddKept(anal: PatternAnalysis, p: Pattern, ghost lists: map<int, seq<Pattern>>, ghost start: seq<Pattern>,
                 ghost done: seq<Pattern>)
    requires anal.Valid() && start == (if p.harmonic in lists then lists[p.harmonic] else [])
    requires anal.listMap == if done == [] then lists else lists[p.harmonic := start + done]
    modifies anal
    ensures anal.Valid() && anal.listMap == lists[p.harmonic := start + done + [p]]
  {
    if done == [] {
      assert start + done == start;
    }
    assert anal.GetPatternsFor(p.harmonic) == start + done;
    anal.AddPattern(p);
  }

  /** The patterns held in the lists of the map. */
  function Recorded(found: map<int, Finding>): (r: set<Pattern>)
    ensures forall k, p :: k in found && p in found[k].gathered ==> p in r
    ensures forall k, p :: k in found && p in found[k].result ==> p in r
  {
    (set k, p | k in found && p in found[k].gathered :: p) + (set k, p | k in found && p in found[k].result :: p)
  }

  /** Each pattern keyed by its negated average strength, for the reversed sort. */
  function Keyed(ps: seq<Pattern>): (r: seq<(real, Pattern)>)
    reads ps
    requires forall p :: p in ps ==> ValidConfig(p.config)
    ensures |r| == |ps| && forall k :: 0 <= k < |ps| ==> r[k] == (-ps[k].AverageStrength(), ps[k])
  {
    seq(|ps|, k requires 0 <= k < |ps| reads ps => (-ps[k].AverageStrength(), ps[k]))
  }

  /**
   * The strength sort of findPatterns returns the same patterns, by
   * non-increasing average strength.
   */
  lemma StrengthOrder(ps: seq<Pattern>)
    requires forall p :: p in ps ==> ValidConfig(p.config)
    ensures var r := Map(SortBy(Keyed(ps), StrengthKey), Second);
      multiset(r) == multiset(ps)
      && (forall p :: p in r ==> p in ps)
      && forall i, j :: 0 <= i < j < |r| ==> r[i].AverageStrength() >= r[j].AverageStrength()
  {
    var keyed := Keyed(ps);
    var sorted := SortBy(keyed, StrengthKey);
    var r := Map(sorted, Second);
    SortByCorrect(keyed, StrengthKey);
    MapPermutation(sorted, keyed, Second);
    assert Map(keyed, Second) == ps;
    forall p | p in r ensures p in ps {
      assert p in multiset(r);
    }
    forall i | 0 <= i < |sorted| ensures r[i] in ps && sorted[i].0 == -r[i].AverageStrength() {
      assert sorted[i] in multiset(keyed);
      var k :| 0 <= k < |keyed| && keyed[k] == sorted[i];
    }
    forall i, j | 0 <= i < j < |r| ensures r[i].AverageStrength() >= r[j].AverageStrength() {
      assert StrengthKey(sorted[i]) <= StrengthKey(sorted[j]);
    }
  }

  /** The strength sort is stable: patterns of equal strength keep their order. */
  lemma StrengthSortStable(ps: seq<Pattern>)
    requires forall p :: p in ps ==> ValidConfig(p.config)
    ensures forall p :: p in Map(SortBy(Keyed(ps), StrengthKey), Second) ==> ValidConfig(p.config)
    ensures forall v :: WithStrength(Map(SortBy(Keyed(ps), StrengthKey), Second), v) == WithStrength(ps, v)
  {
    var keyed := Keyed(ps);
    var sorted := SortBy(keyed, StrengthKey);
    SortByCorrect(keyed, StrengthKey);
    assert Map(keyed, Second) == ps;
    forall i | 0 <= i < |sorted| ensures sorted[i].1 in ps && sorted[i].0 == -sorted[i].1.AverageStrength() {
      assert sorted[i] in multiset(keyed);
      var k :| 0 <= k < |keyed| && keyed[k] == sorted[i];
    }
    forall v ensures WithStrength(Map(sorted, Second), v) == WithStrength(ps, v) {
      StrengthSlice(sorted, v);
      StrengthSlice(keyed, v);
    }
  }

  /** Selecting the entries keyed `-v` selects the patterns of strength `v`. */
  lemma {:induction false} StrengthSlice(es: seq<(real, Pattern)>, v: real)
    requires forall i :: 0 <= i < |es| ==> ValidConfig(es[i].1.config) && es[i].0 == -es[i].1.AverageStrength()
    ensures forall p :: p in Map(es, Second) ==> ValidConfig(p.config)
    ensures Map(WithKey(es, StrengthKey, -v), Second) == WithStrength(Map(es, Second), v)
  {
    if es != [] {
      var init := es[..|es| - 1];
      StrengthSlice(init, v);
      assert Map(es, Second)[..|es| - 1] == Map(init, Second);
      MapAppend(WithKey(init, StrengthKey, -v), if StrengthKey(es[|es| - 1]) == -v then [es[|es| - 1]] else [], Second);
    }
  }

  /** The flat position of astra `q` of chart `c`: after all the astras of the charts before it. */
  function FlatPosition(hs: seq<Chart>, c: nat, q: nat): nat
    reads hs
    requires c <= |hs|
  {
    |Flattened(hs[..c])| + q
  }

  /** Pairs of distinct astras are looked up symmetrically. */
  lemma ResonanceSymmetric(m: AstroMatrix, a: Astra, b: Astra)
    requires m.Valid()
    ensures m.GetResonanceFor(a, b) == m.GetResonanceFor(b, a)
  {
  }

  /**
   * For distinct charts whose astras are distinct and belong to them, the
   * lookup of two different astras of the charts finds the batch of their
   * flat positions.
   */
  lemma ResonanceOfIndexed(m: AstroMatrix, c: nat, q: nat, d: nat, s: nat, a: Astra, b: Astra)
    requires m.Valid() && m.index == IndexOf(m.heavens) && m.allAstras == Flattened(m.heavens)
    requires DistinctCharts(m.heavens) && c < |m.heavens| && d < |m.heavens|
    requires q < |m.heavens[c].astras| && s < |m.heavens[d].astras|
    requires a == m.heavens[c].astras[q] && b == m.heavens[d].astras[s] && a != b
    requires DistinctAstras(m.heavens[c].astras) && DistinctAstras(m.heavens[d].astras)
    requires a.heaven == m.heavens[c] && b.heaven == m.heavens[d]
    ensures FlatPosition(m.heavens, c, q) != FlatPosition(m.heavens, d, s)
    ensures m.GetResonanceFor(a, b) == Ok(Some(Ordered(FlatPosition(m.heavens, c, q), FlatPosition(m.heavens, d, s))))
  {
    IndexLocates(m.heavens, c, q);
    IndexLocates(m.heavens, d, s);
    var x, y := FlatPosition(m.heavens, c, q), FlatPosition(m.heavens, d, s);
    assert m.AstraIndex(a) == x;
    assert m.AstraIndex(b) == y;
    assert x != y by {
      assert m.allAstras[x] == a && m.allAstras[y] == b;
    }
    ResonanceAtPositions(m, a, b, x, y);
  }

  /** Two distinct astras at distinct known positions resolve to the batch of those positions. */
  lemma ResonanceAtPositions(m: AstroMatrix, a: Astra, b: Astra, x: nat, y: nat)
    requires m.Valid() && a != b && x != y
    requires m.AstraIndex(a) == x && m.AstraIndex(b) == y
    ensures m.GetResonanceFor(a, b) == Ok(Some(Ordered(x, y)))
  {
  }

  /** The stream holds n(n-1)/2 batches, one for each pair of positions, each pair once. */
  lemma StreamHoldsEveryPair(m: AstroMatrix)
    requires m.Valid()
    ensures 2 * |m.Stream()| == |m.points| * (|m.points| - 1)
    ensures forall a, b :: 0 <= a < b < |m.points| ==> Some(Batch(a, b)) in m.Stream()
    ensures forall k, l :: 0 <= k < l < |m.Stream()| ==> m.Stream()[k] != m.Stream()[l]
  {
    var n := |m.points|;
    PairsFromFacts(0, n);
    var ps := PairsFrom(0, n);
    forall a, b | 0 <= a < b < n ensures Some(Batch(a, b)) in m.Stream() {
      var k :| 0 <= k < |ps| && ps[k] == Batch(a, b);
      assert m.Stream()[k] == Some(Batch(a, b));
    }
  }
}
