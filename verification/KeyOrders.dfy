// What the sorting keys mean: the order each gives, told without the key.
module KeyOrders {
  import opened Order
  import opened Model
  import opened Derivation
  import opened DerivedRelationships
  import opened PathGraphs
  import opened Routes
  import opened Spurs
  import opened EdgePaths
  import opened GraphBuild
  import opened RankedPaths
  import Neighbours
  import Expansion

  // ---------- texts and endpoints ----------

  // Lists are ordered by the first position where they differ, a beginning coming first.
  predicate ListLeq(xs: seq<string>, ys: seq<string>) {
    xs == [] || (ys != [] && if xs[0] == ys[0] then ListLeq(xs[1..], ys[1..]) else TextLeq(xs[0], ys[0]))
  }

  lemma {:induction false} TextsOrder(xs: seq<string>, ys: seq<string>)
    ensures TupleLeq(Texts(xs), Texts(ys)) <==> ListLeq(xs, ys)
  {
    if xs == [] || ys == [] {
    } else {
      var a, b := Texts(xs), Texts(ys);
      assert a[0] == Text(xs[0]) && b[0] == Text(ys[0]);
      assert a[1..] == Texts(xs[1..]) && b[1..] == Texts(ys[1..]);
      TextsOrder(xs[1..], ys[1..]);
    }
  }

  lemma TextsSame(xs: seq<string>, ys: seq<string>)
    ensures Texts(xs) == Texts(ys) <==> xs == ys
  {
    if Texts(xs) == Texts(ys) {
      forall i | 0 <= i < |xs| ensures xs[i] == ys[i] {
        assert Texts(xs)[i] == Texts(ys)[i];
      }
    }
  }

  // Dataset, logical entity, then columns.
  predicate EndpointLeq(e: Endpoint, f: Endpoint) {
    if e.nodeId != f.nodeId then TextLeq(e.nodeId, f.nodeId)
    else if e.identityId != f.identityId then TextLeq(e.identityId, f.identityId)
    else ListLeq(e.columns, f.columns)
  }

  lemma EndpointOrder(e: Endpoint, f: Endpoint)
    ensures Leq(EndpointKey(e), EndpointKey(f)) <==> EndpointLeq(e, f)
  {
    var x, y := Tuple(Texts(e.columns)), Tuple(Texts(f.columns));
    TextsOrder(e.columns, f.columns);
    TextsSame(e.columns, f.columns);
    HeadOrder(x, [], y, []);
    assert [x] + [] == [x] && [y] + [] == [y];
    HeadOrder(Text(e.identityId), [x], Text(f.identityId), [y]);
    HeadOrder(Text(e.nodeId), [Text(e.identityId), x], Text(f.nodeId), [Text(f.identityId), y]);
    assert EndpointKey(e).items == [Text(e.nodeId)] + ([Text(e.identityId)] + [x]);
    assert EndpointKey(f).items == [Text(f.nodeId)] + ([Text(f.identityId)] + [y]);
    TextsReflexive(e.columns);
  }

  lemma {:induction false} TextsReflexive(xs: seq<string>)
    ensures ListLeq(xs, xs)
  {
    if xs == [] {
    } else {
      TextsReflexive(xs[1..]);
    }
  }

  // The end that comes first in that order becomes a relationship's `a`.
  lemma CanonicalByEndpoints(r: Relationship)
    ensures EndpointLeq(Canonical(r).a, Canonical(r).b)
  {
    CanonicalOrientation(r);
    EndpointOrder(Canonical(r).a, Canonical(r).b);
  }

  // Definitions are numbered in it.
  lemma NumberedInOrder(g: PathGraph, nodes: seq<Dataset>, relationships: seq<Relationship>, x: nat, y: nat)
    requires Built(g, nodes, relationships) && x < y < |g.keys|
    ensures EndpointLeq(g.keys[x], g.keys[y])
  {
    assert Leq(EndpointKey(g.keys[x]), EndpointKey(g.keys[y]));
    EndpointOrder(g.keys[x], g.keys[y]);
  }

  // Derived relationships are listed by edge ID.
  lemma DerivedInOrder(os: set<Occurrence>, i: nat, j: nat)
    requires DistinctEndpoints(os) && i < j < |Derived(os)|
    ensures TextLeq(Derived(os)[i].edgeId, Derived(os)[j].edgeId)
  {
    OneForEveryPair(os);
    assert Leq(EdgeIdKey(Derived(os)[i]), EdgeIdKey(Derived(os)[j]));
  }

  // ---------- ranked paths ----------

  // Edge ID, then the definition left from.
  predicate SameRank(g: PathGraph, x: (nat, nat), y: (nat, nat))
    requires x.0 < |g.keys| && y.0 < |g.keys|
  {
    EdgeIdOf(g, x) == EdgeIdOf(g, y) && g.keys[x.0] == g.keys[y.0]
  }

  predicate EdgeLeq(g: PathGraph, x: (nat, nat), y: (nat, nat))
    requires x.0 < |g.keys| && y.0 < |g.keys|
  {
    if EdgeIdOf(g, x) != EdgeIdOf(g, y) then TextLeq(EdgeIdOf(g, x), EdgeIdOf(g, y))
    else EndpointLeq(g.keys[x.0], g.keys[y.0])
  }

  predicate Numbers(g: PathGraph, p: Edges) {
    forall x :: x in p ==> x.0 < |g.keys|
  }

  // Directed edge by directed edge.
  predicate EdgeListLeq(g: PathGraph, p: Edges, r: Edges)
    requires Numbers(g, p) && Numbers(g, r)
  {
    p == [] || (r != [] && if SameRank(g, p[0], r[0]) then EdgeListLeq(g, p[1..], r[1..]) else EdgeLeq(g, p[0], r[0]))
  }

  lemma EdgeOrder(g: PathGraph, x: (nat, nat), y: (nat, nat))
    requires x.0 < |g.keys| && y.0 < |g.keys|
    ensures Leq(EdgeKey(g, x), EdgeKey(g, y)) <==> EdgeLeq(g, x, y)
    ensures EdgeKey(g, x) == EdgeKey(g, y) <==> SameRank(g, x, y)
  {
    var a, b := EndpointKey(g.keys[x.0]), EndpointKey(g.keys[y.0]);
    EndpointOrder(g.keys[x.0], g.keys[y.0]);
    HeadOrder(a, [], b, []);
    assert [a] + [] == [a] && [b] + [] == [b];
    HeadOrder(Text(EdgeIdOf(g, x)), [a], Text(EdgeIdOf(g, y)), [b]);
    assert EdgeKey(g, x).items == [Text(EdgeIdOf(g, x))] + [a] && EdgeKey(g, y).items == [Text(EdgeIdOf(g, y))] + [b];
    if a == b { EndpointKeyInjective(g.keys[x.0], g.keys[y.0]); }
    TextsReflexive(g.keys[x.0].columns);
  }

  lemma {:induction false} EdgeListOrder(g: PathGraph, p: Edges, r: Edges)
    requires Numbers(g, p) && Numbers(g, r)
    ensures TupleLeq(EdgeKeys(g, p), EdgeKeys(g, r)) <==> EdgeListLeq(g, p, r)
  {
    if p == [] || r == [] {
    } else {
      EdgeOrder(g, p[0], r[0]);
      assert EdgeKeys(g, p) == [EdgeKey(g, p[0])] + EdgeKeys(g, p[1..]);
      assert EdgeKeys(g, r) == [EdgeKey(g, r[0])] + EdgeKeys(g, r[1..]);
      HeadOrder(EdgeKey(g, p[0]), EdgeKeys(g, p[1..]), EdgeKey(g, r[0]), EdgeKeys(g, r[1..]));
      EdgeListOrder(g, p[1..], r[1..]);
    }
  }

  // Fewer directed edges first, then directed edge by directed edge.
  predicate PathLeq(g: PathGraph, p: Edges, r: Edges)
    requires Numbers(g, p) && Numbers(g, r)
  {
    |p| < |r| || (|p| == |r| && EdgeListLeq(g, p, r))
  }

  lemma PathOrder(g: PathGraph, p: Edges, r: Edges)
    requires Numbers(g, p) && Numbers(g, r)
    ensures Leq(EdgesKey(g, p), EdgesKey(g, r)) <==> PathLeq(g, p, r)
  {
    var a, b := Tuple(EdgeKeys(g, p)), Tuple(EdgeKeys(g, r));
    EdgeListOrder(g, p, r);
    HeadOrder(a, [], b, []);
    assert [a] + [] == [a] && [b] + [] == [b];
    HeadOrder(Num(|p|), [a], Num(|r|), [b]);
    assert EdgesKey(g, p).items == [Num(|p|)] + [a] && EdgesKey(g, r).items == [Num(|r|)] + [b];
    if a == b { Total(a, a); }
  }

  lemma FittingNumbers(q: Query, maxEdges: int, p: Edges)
    requires FittingEdges(q, maxEdges, p)
    ensures Numbers(q.graph, p)
  {
    forall x | x in p ensures x.0 < |q.graph.keys| {
      var i: nat :| i < |p| && p[i] == x;
      assert LegalAt(q, p, i);
    }
  }

  // Answers list their paths in this order.
  lemma RankedInOrder(q: Query, maxEdges: int, k: nat, paths: seq<Edges>, more: bool, i: nat, j: nat)
    requires Sensible(q, maxEdges, k, paths, more) && i < j < |paths|
    ensures Numbers(q.graph, paths[i]) && Numbers(q.graph, paths[j]) && PathLeq(q.graph, paths[i], paths[j])
  {
    assert paths[i] in paths && paths[j] in paths;
    FittingNumbers(q, maxEdges, paths[i]);
    FittingNumbers(q, maxEdges, paths[j]);
    assert Leq(EdgesKey(q.graph, paths[i]), EdgesKey(q.graph, paths[j]));
    PathOrder(q.graph, paths[i], paths[j]);
  }

  // And candidates are taken from the heap in it.
  lemma HeapInOrder(q: Query, maxEdges: int, p: Path, r: Path)
    requires q.graph.Valid() && Fits(q, maxEdges, p) && Fits(q, maxEdges, r)
    requires Leq(HeapKey(q.graph, p), HeapKey(q.graph, r))
    ensures Numbers(q.graph, EdgePairs(p)) && Numbers(q.graph, EdgePairs(r))
    ensures PathLeq(q.graph, EdgePairs(p), EdgePairs(r))
  {
    FitsIsFitting(q, maxEdges, p);
    FitsIsFitting(q, maxEdges, r);
    FittingNumbers(q, maxEdges, EdgePairs(p));
    FittingNumbers(q, maxEdges, EdgePairs(r));
    var ps, rs := EdgePairs(p), EdgePairs(r);
    var a, b := Tuple(EdgeKeys(q.graph, ps)), Tuple(EdgeKeys(q.graph, rs));
    var c, d := HeapKey(q.graph, p).items[2], HeapKey(q.graph, r).items[2];
    HeadOrder(a, [c], b, [d]);
    HeadOrder(Num(EdgeCount(p)), [a] + [c], Num(EdgeCount(r)), [b] + [d]);
    assert HeapKey(q.graph, p).items == [Num(EdgeCount(p))] + ([a] + [c]);
    assert HeapKey(q.graph, r).items == [Num(EdgeCount(r))] + ([b] + [d]);
    EdgeListOrder(q.graph, ps, rs);
    if a == b { Total(a, a); }
  }

  // ---------- directed edges of a dataset ----------

  // Logical entity and columns left from, then dataset and columns arrived at.
  predicate DirectedLeq(x: Neighbours.DirectedEdge, y: Neighbours.DirectedEdge) {
    if x.source.identityId != y.source.identityId then TextLeq(x.source.identityId, y.source.identityId)
    else if x.source.columns != y.source.columns then ListLeq(x.source.columns, y.source.columns)
    else if x.target.nodeId != y.target.nodeId then TextLeq(x.target.nodeId, y.target.nodeId)
    else ListLeq(x.target.columns, y.target.columns)
  }

  lemma DirectedOrder(x: Neighbours.DirectedEdge, y: Neighbours.DirectedEdge)
    ensures Leq(Neighbours.SortKey(x), Neighbours.SortKey(y)) <==> DirectedLeq(x, y)
  {
    var a, b := Tuple(Texts(x.source.columns)), Tuple(Texts(y.source.columns));
    var c, d := Tuple(Texts(x.target.columns)), Tuple(Texts(y.target.columns));
    TextsOrder(x.source.columns, y.source.columns);
    TextsSame(x.source.columns, y.source.columns);
    TextsOrder(x.target.columns, y.target.columns);
    TextsSame(x.target.columns, y.target.columns);
    TextsReflexive(x.target.columns);
    HeadOrder(c, [], d, []);
    assert [c] + [] == [c] && [d] + [] == [d];
    HeadOrder(Text(x.target.nodeId), [c], Text(y.target.nodeId), [d]);
    HeadOrder(a, [Text(x.target.nodeId)] + [c], b, [Text(y.target.nodeId)] + [d]);
    HeadOrder(Text(x.source.identityId), [a] + ([Text(x.target.nodeId)] + [c]),
              Text(y.source.identityId), [b] + ([Text(y.target.nodeId)] + [d]));
    assert Neighbours.SortKey(x).items == [Text(x.source.identityId)] + ([a] + ([Text(x.target.nodeId)] + [c]));
    assert Neighbours.SortKey(y).items == [Text(y.source.identityId)] + ([b] + ([Text(y.target.nodeId)] + [d]));
  }

  // So the edges of one definition come by target dataset, then target columns.
  lemma ListedByTarget(rs: seq<Relationship>, edges: Neighbours.EdgesByDataset, node: string, i: nat, j: nat)
    requires Neighbours.Leaving(edges, node)
          == StablySorted(Neighbours.AllOwnEdges(rs, node), Neighbours.SortKey)
    requires i < j < |Neighbours.Leaving(edges, node)|
    ensures var x, y := Neighbours.Leaving(edges, node)[i], Neighbours.Leaving(edges, node)[j];
            && DirectedLeq(x, y)
            && (x.source == y.source && x.target.nodeId != y.target.nodeId ==>
                  TextLeq(x.target.nodeId, y.target.nodeId))
            && (x.source == y.source && x.target.nodeId == y.target.nodeId ==>
                  ListLeq(x.target.columns, y.target.columns))
  {
    var own := Neighbours.Leaving(edges, node);
    if own != [] { Neighbours.ListedExactly(rs, edges, node, own[0]); }
    assert Leq(Neighbours.SortKey(own[i]), Neighbours.SortKey(own[j]));
    DirectedOrder(own[i], own[j]);
  }

  // ---------- datasets of an expansion ----------

  lemma DistanceOrder(x: (string, nat), y: (string, nat))
    requires Leq(Expansion.DistanceKey(x), Expansion.DistanceKey(y))
    ensures x.1 < y.1 || (x.1 == y.1 && TextLeq(x.0, y.0))
  {
    HeadOrder(Text(x.0), [], Text(y.0), []);
    assert [Text(x.0)] + [] == [Text(x.0)] && [Text(y.0)] + [] == [Text(y.0)];
    HeadOrder(Num(x.1), [Text(x.0)], Num(y.1), [Text(y.0)]);
    assert Expansion.DistanceKey(x).items == [Num(x.1)] + [Text(x.0)];
    assert Expansion.DistanceKey(y).items == [Num(y.1)] + [Text(y.0)];
    TextTotal(x.0, x.0);
  }

  // Nearest first, then by dataset ID: what is selected, and what is returned.
  lemma NearestFirst(edges: Neighbours.EdgesByDataset, allowed: Expansion.Keep, seeds: seq<string>,
                     bounds: Expansion.Bounds, referencedOnly: bool, ordered: seq<(string, nat)>,
                     r: Expansion.Neighbourhood)
    requires Expansion.Expands(edges, allowed, seeds, bounds, referencedOnly, ordered, r)
    ensures forall i, j :: 0 <= i < j < |ordered| ==>
              ordered[i].1 < ordered[j].1 || (ordered[i].1 == ordered[j].1 && TextLeq(ordered[i].0, ordered[j].0))
    ensures forall i, j :: 0 <= i < j < |r.datasets| ==>
              || r.datasets[i].1 < r.datasets[j].1
              || (r.datasets[i].1 == r.datasets[j].1 && TextLeq(r.datasets[i].0, r.datasets[j].0))
  {
    Expansion.ReturnedInOrder(edges, allowed, seeds, bounds, referencedOnly, ordered, r);
    forall i, j | 0 <= i < j < |ordered|
      ensures ordered[i].1 < ordered[j].1 || (ordered[i].1 == ordered[j].1 && TextLeq(ordered[i].0, ordered[j].0))
    {
      DistanceOrder(ordered[i], ordered[j]);
    }
    forall i, j | 0 <= i < j < |r.datasets|
      ensures || r.datasets[i].1 < r.datasets[j].1
              || (r.datasets[i].1 == r.datasets[j].1 && TextLeq(r.datasets[i].0, r.datasets[j].0))
    {
      DistanceOrder(r.datasets[i], r.datasets[j]);
    }
  }
}
