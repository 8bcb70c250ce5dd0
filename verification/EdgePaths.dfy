// Sequences of directed edges and the state paths they are the routes of.
module EdgePaths {
  import opened Order
  import opened PathGraphs
  import opened Spurs
  import opened Routes

  type Edges = seq<(nat, nat)>

  // The definitions passed, both ends of every directed edge in turn.
  function Stop(edges: Edges, k: nat): nat
    requires k < 2 * |edges|
  {
    if k % 2 == 0 then edges[k / 2].0 else edges[k / 2].1
  }

  ghost predicate SimpleEdges(edges: Edges) {
    forall i: nat, j: nat :: i < j < 2 * |edges| ==> Stop(edges, i) != Stop(edges, j)
  }

  // A sequence of directed edges within the limit, which may still reuse a definition.
  ghost predicate FittingEdges(q: Query, maxEdges: int, edges: Edges) {
    LegalEdges(q, edges) && |edges| <= maxEdges
  }

  ghost predicate LegalPath(q: Query, maxEdges: int, edges: Edges) {
    FittingEdges(q, maxEdges, edges) && SimpleEdges(edges)
  }

  // Number of directed edges, then edge IDs and the definitions left from.
  function EdgesKey(g: PathGraph, edges: Edges): Key {
    Tuple([Num(|edges|), Tuple(EdgeKeys(g, edges))])
  }

  // ---------- state paths and edge sequences ----------

  lemma RouteStops(q: Query, p: Path, k: nat)
    requires q.graph.Valid() && WalkToTarget(q, NO_CUTS, SOURCE, p) && k < 2 * |EdgePairs(p)|
    ensures |p| == 2 * |EdgePairs(p)| + 2
    ensures p[k + 1] >= 0 && p[k + 1] / 2 == Stop(EdgePairs(p), k)
  {
    var m := WalkAlternates(q, p);
    PairsOfAlternating(p, m);
    assert EdgePairs(p)[k / 2] == PairAt(p, k / 2);
    assert KindAt(p, k + 1);
  }

  lemma WalkLength(q: Query, p: Path)
    requires q.graph.Valid() && WalkToTarget(q, NO_CUTS, SOURCE, p)
    ensures |p| == 2 * |EdgePairs(p)| + 2
  {
    var m := WalkAlternates(q, p);
    PairsOfAlternating(p, m);
  }

  // A state path reuses a definition exactly when its edge sequence does.
  lemma SimpleWalk(q: Query, p: Path)
    requires q.graph.Valid() && WalkToTarget(q, NO_CUTS, SOURCE, p)
    ensures Simple(p) <==> SimpleEdges(EdgePairs(p))
  {
    var edges := EdgePairs(p);
    WalkLength(q, p);
    if Simple(p) {
      forall i: nat, j: nat | i < j < 2 * |edges| ensures Stop(edges, i) != Stop(edges, j) {
        RouteStops(q, p, i);
        RouteStops(q, p, j);
      }
    }
    if SimpleEdges(edges) {
      forall i, j | 0 <= i < j < |p| && p[i] >= 0 && p[j] >= 0 ensures p[i] / 2 != p[j] / 2 {
        WalkStates(q, p, 0);
        WalkStates(q, p, j);
        RouteStops(q, p, i - 1);
        RouteStops(q, p, j - 1);
      }
    }
  }

  lemma FitsIsFitting(q: Query, maxEdges: int, p: Path)
    requires q.graph.Valid() && Fits(q, maxEdges, p)
    ensures FittingEdges(q, maxEdges, EdgePairs(p)) && |EdgePairs(p)| == EdgeCount(p)
    ensures Simple(p) <==> SimpleEdges(EdgePairs(p))
  {
    WalkEdgesLegal(q, p);
    WalkIsRoute(q, p);
    SimpleWalk(q, p);
  }

  lemma FittingFits(q: Query, maxEdges: int, edges: Edges)
    requires q.graph.Valid() && FittingEdges(q, maxEdges, edges)
    ensures Fits(q, maxEdges, Route(edges)) && EdgePairs(Route(edges)) == edges && EdgeCount(Route(edges)) == |edges|
    ensures SimpleEdges(edges) <==> Simple(Route(edges))
  {
    RouteWalks(q, edges);
    RoutePairs(edges);
    SimpleWalk(q, Route(edges));
  }

  lemma SameEdgesSamePath(q: Query, maxEdges: int, p: Path, r: Path)
    requires q.graph.Valid() && Fits(q, maxEdges, p) && Fits(q, maxEdges, r) && EdgePairs(p) == EdgePairs(r)
    ensures p == r
  {
    WalkIsRoute(q, p);
    WalkIsRoute(q, r);
  }
}
