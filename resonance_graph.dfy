/**
 * The resonance graph the pattern search walks: the astras of a matrix are
 * its vertices, and two distinct accepted astras are adjacent when their
 * pair resonates at the harmonic. Patterns are the connected components of
 * this graph.
 */
module ResonanceGraphs {
  import opened Charts
  import opened Patterns

  /** The snapshot, the resonance oracle, the acceptance mask and the harmonic of one search. */
  datatype Graph = Graph(points: seq<Point>, oracle: Oracle, mask: seq<bool>, harmonic: int)

  /** hasHarmonicResonance for the pair of flat indices `a`, `b`, asked of the batch in flat order. */
  predicate Edge(g: Graph, a: nat, b: nat)
    requires a < |g.points| && b < |g.points|
  {
    if a < b then g.oracle.harmonic(g.points[a], g.points[b], g.harmonic)
    else g.oracle.harmonic(g.points[b], g.points[a], g.harmonic)
  }

  /** Two distinct accepted astras whose pair resonates. */
  predicate Adj(g: Graph, a: int, b: int)
  {
    0 <= a < |g.points| && 0 <= b < |g.points| && a < |g.mask| && b < |g.mask|
    && a != b && g.mask[a] && g.mask[b] && Edge(g, a, b)
  }

  lemma AdjSymmetric(g: Graph, a: int, b: int)
    ensures Adj(g, a, b) <==> Adj(g, b, a)
  {
  }

  /** A walk along adjacent astras. */
  predicate IsPath(g: Graph, path: seq<nat>)
  {
    |path| > 0 && forall k :: 0 <= k < |path| - 1 ==> Adj(g, path[k], path[k + 1])
  }

  ghost predicate Reachable(g: Graph, a: nat, b: nat)
  {
    exists path :: IsPath(g, path) && path[0] == a && path[|path| - 1] == b
  }

  lemma ReachableFromItself(g: Graph, a: nat)
    ensures Reachable(g, a, a)
  {
    assert IsPath(g, [a]);
  }

  /** A step to a neighbour followed by a walk is a walk. */
  lemma ReachableThrough(g: Graph, a: nat, b: nat, c: nat)
    requires Adj(g, a, b) && Reachable(g, b, c)
    ensures Reachable(g, a, c)
  {
    var path :| IsPath(g, path) && path[0] == b && path[|path| - 1] == c;
    var longer := [a] + path;
    assert forall k :: 1 <= k < |longer| ==> longer[k] == path[k - 1];
    assert IsPath(g, longer);
  }

  /** Marks closed under adjacency: every neighbour of a marked astra is marked. */
  ghost predicate Closed(g: Graph, m: seq<bool>)
  {
    forall v, w :: 0 <= v < |m| && m[v] && Adj(g, v, w) ==> 0 <= w < |m| && m[w]
  }

  /** Marks that only grew from `before` to `after`. */
  predicate Grown(before: seq<bool>, after: seq<bool>)
  {
    |before| == |after| && forall v :: 0 <= v < |before| && before[v] ==> after[v]
  }

  /**
   * When the marks were closed before and after a search from `root`, and
   * `root` was newly marked, every walk from `root` stays among the newly
   * marked astras: a walk that reached an old mark would have reached it
   * from a new one, whose neighbour it is, and the old marks were closed.
   */
  lemma {:induction false} WalkStaysNew(g: Graph, before: seq<bool>, after: seq<bool>, root: nat, path: seq<nat>)
    requires Closed(g, before) && Closed(g, after) && Grown(before, after)
    requires root < |after| && after[root] && !before[root]
    requires IsPath(g, path) && path[0] == root
    ensures forall k :: 0 <= k < |path| ==> path[k] < |after| && after[path[k]] && !before[path[k]]
  {
    if |path| > 1 {
      var init := path[..|path| - 1];
      assert IsPath(g, init) by {
        forall k | 0 <= k < |init| - 1
          ensures Adj(g, init[k], init[k + 1])
        {
          assert init[k] == path[k] && init[k + 1] == path[k + 1];
        }
      }
      WalkStaysNew(g, before, after, root, init);
      var v, w := path[|path| - 2], path[|path| - 1];
      assert init[|init| - 1] == v;
      assert Adj(g, v, w);
      AdjSymmetric(g, v, w);
    }
  }

  /** Everything reachable from the new root is newly marked. */
  lemma ReachableIsNew(g: Graph, before: seq<bool>, after: seq<bool>, root: nat, v: nat)
    requires Closed(g, before) && Closed(g, after) && Grown(before, after)
    requires root < |after| && after[root] && !before[root]
    requires Reachable(g, root, v)
    ensures v < |after| && after[v] && !before[v]
  {
    var path :| IsPath(g, path) && path[0] == root && path[|path| - 1] == v;
    WalkStaysNew(g, before, after, root, path);
  }

  /** The number of unmarked astras: what the recursive search uses up. */
  function Unmarked(m: seq<bool>): nat
  {
    if m == [] then 0 else Unmarked(m[..|m| - 1]) + (if m[|m| - 1] then 0 else 1)
  }

  lemma {:induction false} UnmarkedShrinks(a: seq<bool>, b: seq<bool>)
    requires Grown(a, b)
    ensures Unmarked(b) <= Unmarked(a)
  {
    if a != [] {
      UnmarkedShrinks(a[..|a| - 1], b[..|b| - 1]);
    }
  }

  lemma {:induction false} UnmarkedMark(a: seq<bool>, i: nat)
    requires i < |a| && !a[i]
    ensures Unmarked(a[i := true]) == Unmarked(a) - 1
  {
    var b := a[i := true];
    if i < |a| - 1 {
      assert b[..|b| - 1] == a[..|a| - 1][i := true];
      UnmarkedMark(a[..|a| - 1], i);
    } else {
      assert b[..|b| - 1] == a[..|a| - 1];
    }
  }

  /** The neighbours of `x` below `hi`, in ascending order. */
  function Neighbours(g: Graph, x: nat, hi: nat): (r: seq<nat>)
    ensures forall k :: 0 <= k < |r| ==> r[k] < hi && Adj(g, x, r[k])
    ensures forall w :: 0 <= w < hi && Adj(g, x, w) ==> w in r
    ensures forall a, b :: 0 <= a < b < |r| ==> r[a] < r[b]
  {
    if hi == 0 then [] else Neighbours(g, x, hi - 1) + (if Adj(g, x, hi - 1) then [hi - 1] else [])
  }

  /** The positions whose mark is set, as a set. */
  function Marked(m: seq<bool>): set<nat>
  {
    set v: nat | v < |m| && m[v]
  }

  /** The marks added between two stages of a search split at a middle stage. */
  lemma MarkedSplit(entry: seq<bool>, middle: seq<bool>, after: seq<bool>)
    requires Grown(entry, middle) && Grown(middle, after)
    ensures (Marked(middle) - Marked(entry)) + (Marked(after) - Marked(middle)) == Marked(after) - Marked(entry)
  {
  }

  /**
   * What a search from `x` leaves behind: the marks only grew, `x` is
   * marked, every new mark is an accepted astra reachable from `x`, and the
   * new marks are closed under adjacency.
   */
  ghost predicate SearchedFrom(g: Graph, x: nat, before: seq<bool>, after: seq<bool>)
  {
    Grown(before, after) && x < |after| && after[x]
    && (forall v :: 0 <= v < |after| && after[v] && !before[v] ==> v < |g.mask| && g.mask[v] && Reachable(g, x, v))
    && (forall v, w :: 0 <= v < |after| && after[v] && !before[v] && Adj(g, v, w) ==> 0 <= w < |after| && after[w])
  }

  /** A search from `x` in progress: as above, except that only the first `k` of the neighbours `ns` are done. */
  ghost predicate SearchingFrom(g: Graph, x: nat, before: seq<bool>, after: seq<bool>, ns: seq<nat>, k: nat)
  {
    Grown(before, after) && x < |after| && after[x]
    && (forall v :: 0 <= v < |after| && after[v] && !before[v] ==> v < |g.mask| && g.mask[v] && Reachable(g, x, v))
    && (forall v, w :: 0 <= v < |after| && after[v] && !before[v] && v != x && Adj(g, v, w) ==> 0 <= w < |after| && after[w])
    && Unmarked(after) < Unmarked(before)
    && k <= |ns| && forall q :: 0 <= q < k ==> ns[q] < |after| && after[ns[q]]
  }

  /** Marking `x` starts the search. */
  lemma SearchStarts(g: Graph, x: nat, before: seq<bool>, ns: seq<nat>)
    requires x < |before| && !before[x] && x < |g.mask| && g.mask[x]
    ensures SearchingFrom(g, x, before, before[x := true], ns, 0)
    ensures Marked(before[x := true]) - Marked(before) == {x}
  {
    ReachableFromItself(g, x);
    UnmarkedMark(before, x);
  }

  /** A neighbour `a` of `x` that was already marked is done. */
  lemma SearchSkips(g: Graph, x: nat, before: seq<bool>, cur: seq<bool>, ns: seq<nat>, k: nat)
    requires SearchingFrom(g, x, before, cur, ns, k) && k < |ns| && ns[k] < |cur| && cur[ns[k]]
    ensures SearchingFrom(g, x, before, cur, ns, k + 1)
  {
  }

  /** A neighbour `a` of `x` searched from in turn is done, and the search from `x` keeps its properties. */
  lemma SearchRecurses(g: Graph, x: nat, before: seq<bool>, cur: seq<bool>, after: seq<bool>, ns: seq<nat>, k: nat)
    requires SearchingFrom(g, x, before, cur, ns, k) && k < |ns| && Adj(g, x, ns[k]) && ns[k] < |cur| && !cur[ns[k]]
    requires SearchedFrom(g, ns[k], cur, after)
    ensures SearchingFrom(g, x, before, after, ns, k + 1)
  {
    UnmarkedShrinks(cur, after);
    forall v | 0 <= v < |after| && after[v] && !cur[v]
      ensures Reachable(g, x, v)
    {
      ReachableThrough(g, x, ns[k], v);
    }
  }

  /** Once every neighbour of `x` is done, the search from `x` is complete. */
  lemma SearchEnds(g: Graph, x: nat, before: seq<bool>, after: seq<bool>)
    requires |g.points| == |after| && SearchingFrom(g, x, before, after, Neighbours(g, x, |after|), |Neighbours(g, x, |after|)|)
    ensures SearchedFrom(g, x, before, after)
  {
    var ns := Neighbours(g, x, |after|);
    forall w | Adj(g, x, w) ensures 0 <= w < |after| && after[w] {
      var q :| 0 <= q < |ns| && ns[q] == w;
    }
  }

  /** The astras reachable from `root`: the pattern a search from `root` gathers. */
  ghost function Component(g: Graph, root: nat): set<nat>
  {
    set v: nat | v < |g.points| && Reachable(g, root, v)
  }

  /**
   * A search from an unmarked `root` over closed marks leaves closed marks,
   * and the marks it adds are exactly the component of `root`.
   */
  lemma NewComponent(g: Graph, before: seq<bool>, after: seq<bool>, root: nat)
    requires |before| == |g.points| && Closed(g, before) && root < |before| && !before[root]
    requires SearchedFrom(g, root, before, after)
    ensures Closed(g, after)
    ensures Marked(after) - Marked(before) == Component(g, root)
  {
    forall v, w | 0 <= v < |after| && after[v] && Adj(g, v, w) ensures 0 <= w < |after| && after[w] {
      AdjSymmetric(g, v, w);
    }
    forall v | v in Component(g, root) ensures v in Marked(after) - Marked(before) {
      ReachableIsNew(g, before, after, root, v);
    }
  }

  /** The marks are exactly the union of the components found. */
  ghost predicate Covered(m: seq<bool>, comps: seq<set<nat>>)
  {
    (forall v :: 0 <= v < |m| ==> (m[v] <==> exists q :: 0 <= q < |comps| && v in comps[q]))
    && forall q, v :: 0 <= q < |comps| && v in comps[q] ==> v < |m|
  }

  ghost predicate Disjoint(comps: seq<set<nat>>)
  {
    forall q1, q2 :: 0 <= q1 < q2 < |comps| ==> comps[q1] !! comps[q2]
  }

  /** The marks a search adds form a new component, disjoint from the ones before. */
  lemma CoverGrows(before: seq<bool>, after: seq<bool>, comps: seq<set<nat>>)
    requires Covered(before, comps) && Disjoint(comps) && Grown(before, after)
    ensures Covered(after, comps + [Marked(after) - Marked(before)])
    ensures Disjoint(comps + [Marked(after) - Marked(before)])
  {
    var comp := Marked(after) - Marked(before);
    var cs := comps + [comp];
    forall v | 0 <= v < |after| ensures after[v] <==> exists q :: 0 <= q < |cs| && v in cs[q] {
      if after[v] && !before[v] {
        assert v in cs[|comps|];
      } else if before[v] {
        var q :| 0 <= q < |comps| && v in comps[q];
        assert v in cs[q];
      }
      if exists q :: 0 <= q < |cs| && v in cs[q] {
        var q :| 0 <= q < |cs| && v in cs[q];
        if q < |comps| {
          assert v in comps[q];
        }
      }
    }
    forall q1, q2 | 0 <= q1 < q2 < |cs| ensures cs[q1] !! cs[q2] {
      if q2 == |comps| {
        forall v | v in cs[q1] ensures v !in comp {
          assert v in comps[q1];
        }
      }
    }
  }

  /** Each component found is the component of its root, an accepted astra. */
  ghost predicate Rooted(g: Graph, comps: seq<set<nat>>, roots: seq<nat>)
  {
    |comps| == |roots|
    && forall q :: 0 <= q < |comps| ==> roots[q] < |g.mask| && g.mask[roots[q]] && comps[q] == Component(g, roots[q])
  }

  /**
   * A sweep over the astras before `i`: the marks are closed, every accepted
   * astra before `i` is marked and only accepted ones are, and the marks are
   * split into disjoint components, each rooted at an accepted astra.
   */
  ghost predicate Sweeping(g: Graph, i: nat, m: seq<bool>, comps: seq<set<nat>>, roots: seq<nat>)
  {
    |m| == |g.points| && |g.mask| == |g.points| && i <= |m|
    && Closed(g, m) && Covered(m, comps) && Disjoint(comps) && Rooted(g, comps, roots)
    && (forall v :: 0 <= v < i && g.mask[v] ==> m[v])
    && (forall v :: 0 <= v < |m| && m[v] ==> g.mask[v])
  }

  /** A search from an accepted, unmarked astra adds its component. */
  lemma SweepFound(g: Graph, i: nat, before: seq<bool>, after: seq<bool>, comps: seq<set<nat>>, roots: seq<nat>)
    requires Sweeping(g, i, before, comps, roots) && i < |before| && g.mask[i] && !before[i]
    requires SearchedFrom(g, i, before, after)
    ensures Sweeping(g, i + 1, after, comps + [Marked(after) - Marked(before)], roots + [i])
  {
    NewComponent(g, before, after, i);
    CoverGrows(before, after, comps);
    var comps', roots' := comps + [Marked(after) - Marked(before)], roots + [i];
    forall q | 0 <= q < |comps'| ensures roots'[q] < |g.mask| && g.mask[roots'[q]] && comps'[q] == Component(g, roots'[q]) {
      if q < |comps| {
        assert comps'[q] == comps[q] && roots'[q] == roots[q];
      }
    }
  }

  /** An astra that is not accepted, or is already marked, leaves the sweep as it is. */
  lemma SweepSkips(g: Graph, i: nat, m: seq<bool>, comps: seq<set<nat>>, roots: seq<nat>)
    requires Sweeping(g, i, m, comps, roots) && i < |m| && !(g.mask[i] && !m[i])
    ensures Sweeping(g, i + 1, m, comps, roots)
  {
  }

  /**
   * After the whole sweep the components partition the accepted astras:
   * each accepted astra lies in exactly one of them, and only those do.
   */
  lemma SweepDone(g: Graph, m: seq<bool>, comps: seq<set<nat>>, roots: seq<nat>)
    requires Sweeping(g, |m|, m, comps, roots)
    ensures m == g.mask
    ensures forall v :: 0 <= v < |g.points| ==> (g.mask[v] <==> exists q :: 0 <= q < |comps| && v in comps[q])
    ensures forall q1, q2, v :: 0 <= q1 < |comps| && 0 <= q2 < |comps| && v in comps[q1] && v in comps[q2] ==> q1 == q2
  {
  }
}
