/**
 * Resonance patterns: groups of astras linked by one harmonic, with the
 * clearance accumulators, the charts they come from and the clusters of
 * conjuncted astras. Astras are named by their flat index in the matrix
 * the pattern belongs to; the pattern keeps that matrix's snapshot of
 * names, charts and positions (`points`), its resonance oracle and the
 * orb settings.
 */
module Patterns {
  import opened JavaLang
  import opened CelestialMechanics
  import opened Sorting
  import opened Charts

  /**
   * ResonanceBatch, whose internals are not part of this model: for an
   * ordered pair of astras and a harmonic, whether they resonate
   * (`hasHarmonicResonance`, the edge of the pattern search) and whether the
   * harmonic is exact for them (`hasExactHarmonic`, the validity test).
   */
  datatype Oracle = Oracle(harmonic: (Point, Point, int) -> bool, exact: (Point, Point, int) -> bool)

  /** The orb settings the patterns read: the primal orb and the half-orb flag for multi-chart patterns. */
  datatype Config = Config(primalOrb: real, halfOrbsForDoubles: bool)

  /** An orb the strength formula accepts (360 divided by the default divisor 30 gives 12). */
  predicate ValidConfig(config: Config)
  {
    0.0 < config.primalOrb < HALF_CIRCLE
  }

  /** No two astras of the snapshot are the same astra (same name in the same chart). */
  predicate Distinguished(points: seq<Point>)
  {
    forall i, j :: 0 <= i < |points| && 0 <= j < |points| && i != j ==> !SameAstra(points[i], points[j])
  }

  predicate InRange(points: seq<Point>, ms: seq<nat>)
  {
    forall k :: 0 <= k < |ms| ==> ms[k] < |points|
  }

  // ---------------------------------------------------------------------
  // Clearance sums
  // ---------------------------------------------------------------------

  /** The harmonic clearance between astras `x` and `m`. */
  function Clearance(points: seq<Point>, x: nat, m: nat, h: int): real
    requires x < |points| && m < |points|
  {
    ArcForHarmonic(points[x].position, points[m].position, h)
  }

  /** The clearances of astra `x` to each of `ms`, summed. */
  function ClearanceSum(points: seq<Point>, x: nat, ms: seq<nat>, h: int): (r: real)
    requires x < |points| && InRange(points, ms)
    ensures 0.0 <= r
  {
    if ms == [] then 0.0
    else ClearanceSum(points, x, ms[..|ms| - 1], h) + Clearance(points, x, ms[|ms| - 1], h)
  }

  lemma ClearanceSumStep(points: seq<Point>, x: nat, ms: seq<nat>, j: nat, h: int)
    requires x < |points| && InRange(points, ms) && j < |ms|
    ensures InRange(points, ms[..j]) && InRange(points, ms[..j + 1])
    ensures ClearanceSum(points, x, ms[..j + 1], h) == ClearanceSum(points, x, ms[..j], h) + Clearance(points, x, ms[j], h)
  {
    assert ms[..j + 1][..j] == ms[..j];
  }

  /** The clearances of all pairs of members, each pair counted once. */
  function PairSum(points: seq<Point>, ms: seq<nat>, h: int): real
    requires InRange(points, ms)
  {
    if ms == [] then 0.0
    else PairSum(points, ms[..|ms| - 1], h) + ClearanceSum(points, ms[|ms| - 1], ms[..|ms| - 1], h)
  }

  /** Two members: the pair sum is their one clearance. */
  lemma PairSumOfTwo(points: seq<Point>, a: nat, b: nat, h: int)
    requires a < |points| && b < |points|
    ensures PairSum(points, [a, b], h) == Clearance(points, b, a, h)
  {
    assert [a, b][..1] == [a];
    assert [a][..0] == [];
    assert PairSum(points, [a], h) == 0.0;
    assert ClearanceSum(points, b, [a], h) == Clearance(points, b, a, h);
  }

  // ---------------------------------------------------------------------
  // Membership
  // ---------------------------------------------------------------------

  /** addAstra on the member list: an astra that isTheSame as a member is refused, any other appended. */
  function AfterAdd(points: seq<Point>, ms: seq<nat>, x: nat): seq<nat>
    requires x < |points| && InRange(points, ms)
  {
    if exists k :: 0 <= k < |ms| && SameAstra(points[ms[k]], points[x]) then ms else ms + [x]
  }

  /** addAstra applied to each of `xs` in turn. */
  function AddedMembers(points: seq<Point>, ms: seq<nat>, xs: seq<nat>): (r: seq<nat>)
    requires InRange(points, ms) && InRange(points, xs)
    ensures InRange(points, r)
  {
    if xs == [] then ms
    else AfterAdd(points, AddedMembers(points, ms, xs[..|xs| - 1]), xs[|xs| - 1])
  }

  /** One more of `xs` added: the members so far, then addAstra of the next one. */
  lemma AddedMembersStep(points: seq<Point>, ms: seq<nat>, xs: seq<nat>, k: nat)
    requires InRange(points, ms) && InRange(points, xs) && k < |xs|
    ensures InRange(points, xs[..k]) && InRange(points, xs[..k + 1])
    ensures AddedMembers(points, ms, xs[..k + 1]) == AfterAdd(points, AddedMembers(points, ms, xs[..k]), xs[k])
  {
    assert xs[..k + 1][..k] == xs[..k];
  }

  /** No two members are the same astra. */
  predicate NoneTheSame(points: seq<Point>, ms: seq<nat>)
    requires InRange(points, ms)
  {
    forall i, j :: 0 <= i < j < |ms| ==> !SameAstra(points[ms[i]], points[ms[j]])
  }

  /** When the astras of the matrix are distinct, adding keeps exactly the union of the members. */
  lemma {:induction false} AddedMembersUnion(points: seq<Point>, ms: seq<nat>, xs: seq<nat>)
    requires InRange(points, ms) && InRange(points, xs) && Distinguished(points)
    ensures MemberSet(AddedMembers(points, ms, xs)) == MemberSet(ms) + MemberSet(xs)
  {
    if xs != [] {
      var init := xs[..|xs| - 1];
      var x := xs[|xs| - 1];
      AddedMembersUnion(points, ms, init);
      var before := AddedMembers(points, ms, init);
      assert MemberSet(xs) == MemberSet(init) + {x} by {
        assert xs == init + [x];
      }
      if exists k :: 0 <= k < |before| && SameAstra(points[before[k]], points[x]) {
        var k :| 0 <= k < |before| && SameAstra(points[before[k]], points[x]);
        assert before[k] == x;
        assert AddedMembers(points, ms, xs) == before;
      } else {
        assert AddedMembers(points, ms, xs) == before + [x];
        assert MemberSet(before + [x]) == MemberSet(before) + {x};
      }
    }
  }

  // ---------------------------------------------------------------------
  // Clusters
  // ---------------------------------------------------------------------

  /** Cluster.inConjunction: some astra of the cluster is conjuncted with `x` (same chart, within the primal orb). */
  predicate InConjunction(points: seq<Point>, cluster: set<nat>, x: nat, primalOrb: real)
    requires x < |points|
  {
    exists a :: a in cluster && a < |points| && AreConjuncted(points[a], points[x], primalOrb)
  }

  /** The first cluster that takes `x`, or the number of clusters when none does. */
  function FirstTaker(points: seq<Point>, clusters: seq<set<nat>>, x: nat, primalOrb: real): (r: nat)
    requires x < |points|
    ensures r <= |clusters|
    ensures forall q :: 0 <= q < r ==> !InConjunction(points, clusters[q], x, primalOrb)
    ensures r < |clusters| ==> InConjunction(points, clusters[r], x, primalOrb)
  {
    if clusters == [] then 0
    else if InConjunction(points, clusters[0], x, primalOrb) then 0
    else 1 + FirstTaker(points, clusters[1..], x, primalOrb)
  }

  /** The clusters after adding `x`: joined to the first taker, otherwise a new singleton at the end. */
  function ClustersAfter(points: seq<Point>, clusters: seq<set<nat>>, x: nat, primalOrb: real): seq<set<nat>>
    requires x < |points|
  {
    var f := FirstTaker(points, clusters, x, primalOrb);
    if f < |clusters| then clusters[f := clusters[f] + {x}] else clusters + [{x}]
  }

  /** The clusters are non-empty, pairwise disjoint and together hold exactly `members`. */
  predicate Partition(clusters: seq<set<nat>>, members: set<nat>)
  {
    (forall q :: 0 <= q < |clusters| ==> clusters[q] != {})
    && (forall q, m :: 0 <= q < |clusters| && m in clusters[q] ==> m in members)
    && (forall q, r, m :: 0 <= q < r < |clusters| && m in clusters[q] ==> m !in clusters[r])
    && (forall m :: m in members ==> exists q :: 0 <= q < |clusters| && m in clusters[q])
  }

  /** A new astra keeps the clusters a partition of the members. */
  lemma ClustersAfterPartition(points: seq<Point>, clusters: seq<set<nat>>, members: set<nat>, x: nat, primalOrb: real)
    requires x < |points| && x !in members && Partition(clusters, members)
    ensures Partition(ClustersAfter(points, clusters, x, primalOrb), members + {x})
  {
    var f := FirstTaker(points, clusters, x, primalOrb);
    if f < |clusters| {
      JoinedPartition(clusters, members, x, f);
    } else {
      AppendedPartition(clusters, members, x);
    }
  }

  lemma JoinedPartition(clusters: seq<set<nat>>, members: set<nat>, x: nat, f: nat)
    requires x !in members && Partition(clusters, members) && f < |clusters|
    ensures Partition(clusters[f := clusters[f] + {x}], members + {x})
  {
    var r := clusters[f := clusters[f] + {x}];
    forall m | m in members + {x} ensures exists q :: 0 <= q < |r| && m in r[q] {
      if m == x {
        assert m in r[f];
      } else {
        var q :| 0 <= q < |clusters| && m in clusters[q];
        assert m in r[q];
      }
    }
  }

  lemma AppendedPartition(clusters: seq<set<nat>>, members: set<nat>, x: nat)
    requires x !in members && Partition(clusters, members)
    ensures Partition(clusters + [{x}], members + {x})
  {
    var r := clusters + [{x}];
    forall m | m in members + {x} ensures exists q :: 0 <= q < |r| && m in r[q] {
      if m == x {
        assert m in r[|clusters|];
      } else {
        var q :| 0 <= q < |clusters| && m in clusters[q];
        assert m in r[q];
      }
    }
  }

  /** An astra joins a cluster only when it is conjuncted with one of the cluster's astras. */
  lemma ClusterJoinsConjuncted(points: seq<Point>, clusters: seq<set<nat>>, x: nat, primalOrb: real)
    requires x < |points|
    requires forall q :: 0 <= q < |clusters| ==> x !in clusters[q]
    ensures var r := ClustersAfter(points, clusters, x, primalOrb);
      forall q :: 0 <= q < |r| && x in r[q] && r[q] != {x} ==>
        exists a :: a in r[q] && a != x && a < |points| && AreConjuncted(points[a], points[x], primalOrb)
  {
  }

  function MemberSet(ms: seq<nat>): set<nat>
  {
    set m | m in ms
  }

  /** `hs` lists the charts of the members, each once. */
  predicate HeavensOf(points: seq<Point>, ms: seq<nat>, hs: seq<Chart?>)
    requires InRange(points, ms)
  {
    (forall k :: 0 <= k < |hs| ==> exists q :: 0 <= q < |ms| && points[ms[q]].heaven == hs[k])
    && (forall q :: 0 <= q < |ms| ==> points[ms[q]].heaven in hs)
    && (forall k, l :: 0 <= k < l < |hs| ==> hs[k] != hs[l])
  }

  /** The chart list after a new member: its chart appended when it is not there yet. */
  function HeavensAfter(hs: seq<Chart?>, heaven: Chart?): seq<Chart?>
  {
    if heaven in hs then hs else hs + [heaven]
  }

  lemma HeavensOfAppend(points: seq<Point>, ms: seq<nat>, hs: seq<Chart?>, x: nat)
    requires InRange(points, ms) && x < |points| && HeavensOf(points, ms, hs)
    ensures InRange(points, ms + [x]) && HeavensOf(points, ms + [x], HeavensAfter(hs, points[x].heaven))
  {
    var ms' := ms + [x];
    var hs' := HeavensAfter(hs, points[x].heaven);
    forall k | 0 <= k < |hs'| ensures exists q :: 0 <= q < |ms'| && points[ms'[q]].heaven == hs'[k] {
      if k < |hs| {
        var q :| 0 <= q < |ms| && points[ms[q]].heaven == hs[k];
        assert ms'[q] == ms[q];
      } else {
        assert ms'[|ms|] == x;
      }
    }
    forall q | 0 <= q < |ms'| ensures points[ms'[q]].heaven in hs' {
      if q < |ms| {
        assert ms'[q] == ms[q];
      }
    }
  }

  lemma NoneTheSameAppend(points: seq<Point>, ms: seq<nat>, x: nat)
    requires InRange(points, ms) && x < |points| && NoneTheSame(points, ms)
    requires forall q :: 0 <= q < |ms| ==> !SameAstra(points[ms[q]], points[x])
    ensures InRange(points, ms + [x]) && NoneTheSame(points, ms + [x])
  {
  }

  lemma PairSumAppend(points: seq<Point>, ms: seq<nat>, x: nat, h: int)
    requires InRange(points, ms) && x < |points|
    ensures InRange(points, ms + [x])
    ensures PairSum(points, ms + [x], h) == PairSum(points, ms, h) + ClearanceSum(points, x, ms, h)
  {
    assert (ms + [x])[..|ms|] == ms;
  }

  /**
   * The invariant of a pattern: its members are distinct astras of the
   * matrix, the element keys are the members, the total is the sum over all
   * pairs, `hs` lists the members' charts once each and the clusters
   * partition the members.
   */
  ghost predicate Coherent(points: seq<Point>, h: int, ms: seq<nat>, es: map<nat, real>, total: real,
                           hs: seq<Chart?>, cs: seq<set<nat>>)
  {
    InRange(points, ms)
    && NoneTheSame(points, ms)
    && es.Keys == MemberSet(ms)
    && total == PairSum(points, ms, h)
    && HeavensOf(points, ms, hs)
    && Partition(cs, MemberSet(ms))
  }

  /** Every entry of `es` raised by `d`. */
  function Shifted(es: map<nat, real>, d: real): (r: map<nat, real>)
    ensures r.Keys == es.Keys
  {
    map m | m in es :: es[m] + d
  }

  lemma ShiftedTwice(es: map<nat, real>, d: real, e: real)
    ensures Shifted(Shifted(es, d), e) == Shifted(es, d + e)
  {
  }

  /** Appending an astra that is not the same as any member keeps the invariant, stated on the new state. */
  lemma CoherentAppend(points: seq<Point>, h: int, primalOrb: real, ms: seq<nat>, es: map<nat, real>, total: real,
                       hs: seq<Chart?>, cs: seq<set<nat>>, x: nat, s: real,
                       ms': seq<nat>, es': map<nat, real>, total': real, hs': seq<Chart?>, cs': seq<set<nat>>)
    requires Coherent(points, h, ms, es, total, hs, cs) && x < |points|
    requires forall q :: 0 <= q < |ms| ==> !SameAstra(points[ms[q]], points[x])
    requires s == ClearanceSum(points, x, ms, h)
    requires ms' == ms + [x] && es'.Keys == es.Keys + {x} && total' == total + s
    requires hs' == HeavensAfter(hs, points[x].heaven) && cs' == ClustersAfter(points, cs, x, primalOrb)
    ensures Coherent(points, h, ms', es', total', hs', cs')
  {
    CoherentAppended(points, h, primalOrb, ms, es, total, hs, cs, x, es', s);
  }

  /** Appending an astra that is not the same as any member keeps the invariant. */
  lemma CoherentAppended(points: seq<Point>, h: int, primalOrb: real, ms: seq<nat>, es: map<nat, real>, total: real,
                         hs: seq<Chart?>, cs: seq<set<nat>>, x: nat, es': map<nat, real>, s: real)
    requires Coherent(points, h, ms, es, total, hs, cs) && x < |points|
    requires forall q :: 0 <= q < |ms| ==> !SameAstra(points[ms[q]], points[x])
    requires s == ClearanceSum(points, x, ms, h) && es'.Keys == es.Keys + {x}
    ensures Coherent(points, h, ms + [x], es', total + s, HeavensAfter(hs, points[x].heaven),
                     ClustersAfter(points, cs, x, primalOrb))
  {
    assert forall q :: 0 <= q < |ms| ==> ms[q] != x;
    var ms' := ms + [x];
    assert x !in MemberSet(ms);
    assert MemberSet(ms') == MemberSet(ms) + {x};
    assert InRange(points, ms') && NoneTheSame(points, ms') by {
      NoneTheSameAppend(points, ms, x);
    }
    assert es'.Keys == MemberSet(ms');
    assert total + s == PairSum(points, ms', h) by {
      PairSumAppend(points, ms, x, h);
    }
    assert HeavensOf(points, ms', HeavensAfter(hs, points[x].heaven)) by {
      HeavensOfAppend(points, ms, hs, x);
    }
    assert Partition(ClustersAfter(points, cs, x, primalOrb), MemberSet(ms')) by {
      ClustersAfterPartition(points, cs, MemberSet(ms), x, primalOrb);
    }
  }

  // ---------------------------------------------------------------------
  // The pattern object
  // ---------------------------------------------------------------------

  class Pattern {
    const harmonic: int
    const points: seq<Point>
    const oracle: Oracle
    const config: Config
    /** The keys of `elements`, in the order they were added. */
    var members: seq<nat>
    /** Each member's accumulated clearance. */
    var elements: map<nat, real>
    /** The charts of the members, each once, in order of first appearance. */
    var heavens: seq<Chart?>
    var totalClearance: real
    var clusters: seq<set<nat>>

    ghost predicate Valid()
      reads this
    {
      Coherent(points, harmonic, members, elements, totalClearance, heavens, clusters)
    }

    constructor (harmonic: int, points: seq<Point>, oracle: Oracle, config: Config)
      ensures Valid() && members == [] && heavens == [] && clusters == []
      ensures this.harmonic == harmonic && this.points == points && this.oracle == oracle && this.config == config
    {
      this.harmonic := harmonic;
      this.points := points;
      this.oracle := oracle;
      this.config := config;
      members := [];
      elements := map[];
      heavens := [];
      totalClearance := 0.0;
      clusters := [];
    }

    /** Pattern(harmonic, astras, host): an empty pattern, then addAstra for each astra. */
    constructor WithAstras(harmonic: int, astras: seq<nat>, points: seq<Point>, oracle: Oracle, config: Config)
      requires InRange(points, astras)
      ensures Valid() && members == AddedMembers(points, [], astras)
      ensures this.harmonic == harmonic && this.points == points && this.oracle == oracle && this.config == config
    {
      this.harmonic := harmonic;
      this.points := points;
      this.oracle := oracle;
      this.config := config;
      members := [];
      elements := map[];
      heavens := [];
      totalClearance := 0.0;
      clusters := [];
      new;
      var k := 0;
      while k < |astras|
        invariant 0 <= k <= |astras| && Valid()
        invariant this.harmonic == harmonic && this.points == points && this.oracle == oracle && this.config == config
        invariant members == AddedMembers(points, [], astras[..k])
      {
        assert astras[..k + 1][..k] == astras[..k];
        AddAstra(astras[k]);
        k := k + 1;
      }
      assert astras[..k] == astras;
    }

    /**
     * addAstra: an astra that isTheSame as a member changes nothing. Otherwise
     * its chart joins `heavens` if new; for each member its clearance to the
     * new astra is added to the new astra's entry, to the total, and (as
     * written) to every member's entry, so each earlier member grows by the
     * whole sum; then the astra joins the first cluster it is conjuncted
     * with, or starts its own.
     */
    method AddAstra(x: nat)
      requires Valid() && x < |points|
      modifies this
      ensures Valid()
      ensures members == AfterAdd(points, old(members), x)
      ensures members == old(members) ==>
        elements == old(elements) && heavens == old(heavens)
        && totalClearance == old(totalClearance) && clusters == old(clusters)
      ensures members != old(members) ==>
        var s := ClearanceSum(points, x, old(members), harmonic);
        elements == Shifted(old(elements), s)[x := s]
        && totalClearance == old(totalClearance) + s
        && heavens == HeavensAfter(old(heavens), points[x].heaven)
        && clusters == ClustersAfter(points, old(clusters), x, config.primalOrb)
    {
      var k := 0;
      while k < |members|
        invariant 0 <= k <= |members|
        invariant forall q :: 0 <= q < k ==> !SameAstra(points[members[q]], points[x])
      {
        if SameAstra(points[members[k]], points[x]) {
          return;
        }
        k := k + 1;
      }
      AppendAstra(x);
    }

    /** The part of addAstra after the isTheSame scan found no match. */
    method AppendAstra(x: nat)
      requires Coherent(points, harmonic, members, elements, totalClearance, heavens, clusters) && x < |points|
      requires forall q :: 0 <= q < |members| ==> !SameAstra(points[members[q]], points[x])
      modifies this
      ensures Coherent(points, harmonic, members, elements, totalClearance, heavens, clusters)
      ensures members == old(members) + [x]
      ensures var s := ClearanceSum(points, x, old(members), harmonic);
        elements == Shifted(old(elements), s)[x := s]
        && totalClearance == old(totalClearance) + s
        && heavens == HeavensAfter(old(heavens), points[x].heaven)
        && clusters == ClustersAfter(points, old(clusters), x, config.primalOrb)
    {
      ghost var m0, e0, t0, h0, c0 := members, elements, totalClearance, heavens, clusters;
      if points[x].heaven !in heavens {
        heavens := heavens + [points[x].heaven];
      }
      var clearanceSum := AccumulateClearances(x);
      elements := elements[x := clearanceSum];
      members := members + [x];
      JoinCluster(x);
      CoherentAppend(points, harmonic, config.primalOrb, m0, e0, t0, h0, c0, x, clearanceSum,
                     members, elements, totalClearance, heavens, clusters);
    }

    /**
     * The clearance loop of addAstra: each member's clearance to `x` goes
     * into the running sum, the total and every member's entry.
     */
    method AccumulateClearances(x: nat) returns (clearanceSum: real)
      requires InRange(points, members) && x < |points|
      modifies this
      ensures members == old(members) && heavens == old(heavens) && clusters == old(clusters)
      ensures clearanceSum == ClearanceSum(points, x, members, harmonic)
      ensures elements == Shifted(old(elements), clearanceSum)
      ensures totalClearance == old(totalClearance) + clearanceSum
    {
      clearanceSum := 0.0;
      var j := 0;
      while j < |members|
        invariant 0 <= j <= |members|
        invariant members == old(members) && heavens == old(heavens) && clusters == old(clusters)
        invariant clearanceSum == ClearanceSum(points, x, members[..j], harmonic)
        invariant elements == Shifted(old(elements), clearanceSum)
        invariant totalClearance == old(totalClearance) + clearanceSum
      {
        var clearance := Clearance(points, x, members[j], harmonic);
        ClearanceSumStep(points, x, members, j, harmonic);
        ShiftedTwice(old(elements), clearanceSum, clearance);
        clearanceSum := clearanceSum + clearance;
        elements := Shifted(elements, clearance);
        totalClearance := totalClearance + clearance;
        j := j + 1;
      }
      assert members[..j] == members;
    }

    /** The cluster loop of addAstra: `x` joins the first cluster it is conjuncted with, or a new one. */
    method JoinCluster(x: nat)
      requires x < |points|
      modifies this
      ensures clusters == ClustersAfter(points, old(clusters), x, config.primalOrb)
      ensures members == old(members) && heavens == old(heavens) && elements == old(elements)
      ensures totalClearance == old(totalClearance)
    {
      var inCluster := false;
      var c := 0;
      while c < |clusters|
        invariant 0 <= c <= |clusters| && clusters == old(clusters) && !inCluster
        invariant forall q :: 0 <= q < c ==> !InConjunction(points, clusters[q], x, config.primalOrb)
      {
        if InConjunction(points, clusters[c], x, config.primalOrb) {
          clusters := clusters[c := clusters[c] + {x}];
          inCluster := true;
          break;
        }
        c := c + 1;
      }
      if !inCluster {
        clusters := clusters + [{x}];
      }
    }

    /** addAllAstras: addAstra for each member of the other pattern, in its order. */
    method AddAllAstras(other: Pattern)
      requires Valid() && other.points == points && InRange(points, other.members)
      modifies this
      ensures Valid()
      ensures members == AddedMembers(points, old(members), old(other.members))
    {
      var incoming := other.members;
      var k := 0;
      while k < |incoming|
        invariant 0 <= k <= |incoming| && Valid()
        invariant members == AddedMembers(points, old(members), incoming[..k])
      {
        AddedMembersStep(points, old(members), incoming, k);
        AddAstra(incoming[k]);
        k := k + 1;
      }
      assert incoming[..k] == incoming;
    }

    function Size(): nat
      reads this
    {
      |members|
    }

    function Dimension(): nat
      reads this
    {
      |heavens|
    }

    /** possiblePairs: the number of unordered pairs of members; the halving is exact. */
    function PossiblePairs(): (r: nat)
      reads this
      ensures 2 * r == |members| * (|members| - 1)
      ensures |members| >= 2 ==> r >= 1
    {
      PairsEven(|members|);
      |members| * (|members| - 1) / 2
    }

    /** defineOrb: the primal orb, halved for a multi-chart pattern when the setting asks for it. */
    function DefineOrb(): (r: real)
      reads this
      ensures ValidConfig(config) ==> 0.0 < r < HALF_CIRCLE
      ensures r == config.primalOrb || r == config.primalOrb / 2.0
      ensures r == config.primalOrb / 2.0 && config.primalOrb != 0.0 ==> Dimension() > 1 && config.halfOrbsForDoubles
    {
      if |heavens| > 1 && config.halfOrbsForDoubles then config.primalOrb / 2.0 else config.primalOrb
    }

    /** getAverageStrength: 0 below two members, else the strength of the mean pair clearance. */
    function AverageStrength(): (r: real)
      reads this
      requires ValidConfig(config)
    {
      if |members| < 2 then 0.0
      else Strength(DefineOrb(), totalClearance / PossiblePairs() as real)
    }

    /** inResonance for two members: the oracle's exact test on the pair in flat order. */
    predicate InResonance(a: nat, b: nat)
      reads this
      requires a < |points| && b < |points|
    {
      if a < b then oracle.exact(points[a], points[b], harmonic) else oracle.exact(points[b], points[a], harmonic)
    }

    /** isValid: some pair of members is in exact resonance at the pattern's harmonic. */
    predicate IsValid()
      reads this
      requires InRange(points, members)
    {
      exists i, j :: 0 <= i < j < |members| && InResonance(members[i], members[j])
    }

    /** ofHeavenSet: as many charts as given, and every given chart among the pattern's charts. */
    predicate OfHeavenSet(charts: seq<Chart>)
      reads this
    {
      |heavens| == |charts| && forall k :: 0 <= k < |charts| ==> charts[k] in heavens
    }

    /** getAstrasByConnectivity: the members by non-increasing accumulated value, stable. */
    function ByConnectivity(): (r: seq<nat>)
      reads this
      requires Valid()
      ensures multiset(r) == multiset(members)
      ensures forall i, j :: 0 <= i < j < |r| ==> r[i] in elements && r[j] in elements && elements[r[i]] >= elements[r[j]]
    {
      var es := elements;
      var key := (m: nat) => if m in es then -es[m] else 0.0;
      SortByCorrect(members, key);
      var r := SortBy(members, key);
      assert forall i :: 0 <= i < |r| ==> r[i] in es by {
        forall i | 0 <= i < |r| ensures r[i] in es {
          assert r[i] in multiset(members);
        }
      }
      r
    }
  }

  /** n(n-1) is even, so halving it loses nothing. */
  lemma {:induction false} PairsEven(n: nat)
    ensures n * (n - 1) % 2 == 0
  {
    if n > 1 {
      PairsEven(n - 1);
      assert n * (n - 1) == (n - 1) * (n - 2) + 2 * (n - 1);
    }
  }

  /** inResonance does not depend on the order of the two members. */
  lemma InResonanceSymmetric(p: Pattern, a: nat, b: nat)
    requires a < |p.points| && b < |p.points|
    ensures p.InResonance(a, b) <==> p.InResonance(b, a)
  {
  }

  /** getDimension counts the distinct charts of the members. */
  lemma DimensionCountsCharts(p: Pattern)
    requires p.Valid()
    ensures p.Dimension() == |set q | 0 <= q < |p.members| :: p.points[p.members[q]].heaven|
  {
    var hs := set q | 0 <= q < |p.members| :: p.points[p.members[q]].heaven;
    assert hs == set k | k in p.heavens by {
      forall c | c in hs ensures c in p.heavens {
        var q :| 0 <= q < |p.members| && p.points[p.members[q]].heaven == c;
      }
      forall k | 0 <= k < |p.heavens| ensures p.heavens[k] in hs {
        var q :| 0 <= q < |p.members| && p.points[p.members[q]].heaven == p.heavens[k];
      }
    }
    DistinctCard(p.heavens);
  }

  lemma {:induction false} DistinctCard<T>(s: seq<T>)
    requires forall k, l :: 0 <= k < l < |s| ==> s[k] != s[l]
    ensures |set x | x in s| == |s|
  {
    if s != [] {
      var init := s[..|s| - 1];
      DistinctCard(init);
      assert (set x | x in s) == (set x | x in init) + {s[|s| - 1]};
      assert s[|s| - 1] !in init;
    }
  }

  /** A pattern of two astras has the strength of their one clearance. */
  lemma TwoMemberStrength(p: Pattern)
    requires p.Valid() && ValidConfig(p.config) && |p.members| == 2
    ensures p.AverageStrength() == Strength(p.DefineOrb(), Clearance(p.points, p.members[1], p.members[0], p.harmonic))
  {
    var a, b := p.members[0], p.members[1];
    assert p.members == [a, b];
    PairSumOfTwo(p.points, a, b, p.harmonic);
    assert p.totalClearance == Clearance(p.points, b, a, p.harmonic);
    assert p.PossiblePairs() == 1;
    assert p.totalClearance / p.PossiblePairs() as real == p.totalClearance;
  }

  /** The average strength is at most 100, and fewer than two members give 0. */
  lemma AverageStrengthBounds(p: Pattern)
    requires p.Valid() && ValidConfig(p.config)
    ensures p.AverageStrength() <= 100.0
    ensures |p.members| < 2 ==> p.AverageStrength() == 0.0
  {
    if |p.members| >= 2 {
      PairSumNonNegative(p.points, p.members, p.harmonic);
      var n := |p.members|;
      assert n * (n - 1) >= 2;
      StrengthScale(p.DefineOrb(), 0.0);
      StrengthMonotone(p.DefineOrb(), 0.0, p.totalClearance / p.PossiblePairs() as real);
    }
  }

  /** isValid needs a pair: below two members a pattern is never valid. */
  lemma IsValidNeedsTwo(p: Pattern)
    requires InRange(p.points, p.members)
    ensures |p.members| < 2 ==> !p.IsValid()
    ensures |p.members| == 2 ==> (p.IsValid() <==> p.InResonance(p.members[0], p.members[1]))
  {
    if |p.members| == 2 && p.InResonance(p.members[0], p.members[1]) {
      assert 0 <= 0 < 1 < |p.members|;
    }
  }

  /**
   * For distinct charts, ofHeavenSet holds exactly when the pattern's
   * charts are those charts, no more and no fewer.
   */
  lemma OfHeavenSetExactly(p: Pattern, charts: seq<Chart>)
    requires p.Valid()
    requires forall k, l :: 0 <= k < l < |charts| ==> charts[k] != charts[l]
    ensures p.OfHeavenSet(charts) <==> (set k | 0 <= k < |charts| :: charts[k] as Chart?) == (set h | h in p.heavens)
  {
    var given := set k | 0 <= k < |charts| :: charts[k] as Chart?;
    var own := set h | h in p.heavens;
    var cs := seq(|charts|, k requires 0 <= k < |charts| => charts[k] as Chart?);
    assert given == set h | h in cs by {
      forall h | h in cs ensures h in given {
        var k :| 0 <= k < |cs| && cs[k] == h;
      }
      forall k | 0 <= k < |charts| ensures charts[k] as Chart? in cs {
        assert cs[k] == charts[k];
      }
    }
    DistinctCard(cs);
    DistinctCard(p.heavens);
    if p.OfHeavenSet(charts) {
      assert given <= own;
      SubsetOfSameSize(given, own);
    }
    if given == own {
      forall k | 0 <= k < |charts| ensures charts[k] in p.heavens {
        assert charts[k] as Chart? in given;
      }
    }
  }

  lemma SubsetOfSameSize<T>(a: set<T>, b: set<T>)
    requires a <= b && |a| == |b|
    ensures a == b
  {
    assert |b - a| == |b| - |a|;
  }

  lemma {:induction false} PairSumNonNegative(points: seq<Point>, ms: seq<nat>, h: int)
    requires InRange(points, ms)
    ensures PairSum(points, ms, h) >= 0.0
  {
    if ms != [] {
      PairSumNonNegative(points, ms[..|ms| - 1], h);
    }
  }
}
