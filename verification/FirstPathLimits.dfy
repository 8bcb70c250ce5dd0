// Where a first path does reuse a definition: within one dataset, and under a multiplicity filter.
module FirstPathLimits {
  import opened Model
  import opened Derivation
  import opened DerivedGraph
  import opened PathGraphs
  import opened Routes
  import opened KShortest
  import opened EdgePaths
  import opened RankedPaths
  import opened FirstPath
  import opened Samples

  // A dataset's path back to itself cannot avoid its only definition.
  lemma LoneDefinitionIsReused(q: Query, edges: Edges, d: nat)
    requires q.graph.Valid() && q.source == q.target && LegalEdges(q, edges)
    requires forall x: nat :: x < |q.graph.keys| && q.graph.keys[x].nodeId == q.source ==> x == d
    ensures !SimpleEdges(edges)
  {
    assert LegalAt(q, edges, 0) && LegalAt(q, edges, |edges| - 1);
    assert Stop(edges, 0) == d && Stop(edges, 2 * |edges| - 1) == d;
  }

  lemma OneEdgeIsSimple(q: Query, p: Edges)
    requires q.graph.Valid() && JoinsIdentities(q.graph) && q.allowed.None? && LegalEdges(q, p) && |p| == 1
    ensures SimpleEdges(p)
  {
    assert LegalAt(q, p, 0);
    LinkedIsSameIdentity(q, p[0].0, p[0].1);
  }

  // With two definitions of one entity it can: one directed edge joins them, and every answer is legal.
  lemma PairIsNotReused(q: Query, maxEdges: int, k: nat, paths: seq<Edges>, more: bool, x: nat, y: nat)
    requires q.graph.Valid() && JoinsIdentities(q.graph) && q.allowed.None? && q.source == q.target
    requires x != y && SameIdentity(q.graph, x, y)
    requires q.graph.keys[x].nodeId == q.graph.keys[y].nodeId == q.source
    requires Sensible(q, maxEdges, k, paths, more)
    ensures forall p :: p in paths ==> LegalPath(q, maxEdges, p)
  {
    var direct: Edges := [(x, y)];
    LinkedIsSameIdentity(q, x, y);
    assert LegalAt(q, direct, 0);
    forall p: Edges | p in paths ensures SimpleEdges(p) {
      if |p| == 1 {
        OneEdgeIsSimple(q, p);
      } else {
        assert FittingEdges(q, maxEdges, p) && |p| > |direct|;
        assert FittingEdges(q, maxEdges, direct);
      }
    }
  }

  // Nor can a path whose source and target both lead through the same definition elsewhere.
  lemma BottleneckIsReused(q: Query, edges: Edges, d: nat)
    requires q.graph.Valid() && LegalEdges(q, edges) && d < |q.graph.keys|
    requires q.graph.keys[d].nodeId != q.source && q.graph.keys[d].nodeId != q.target
    requires forall x: nat, y: nat ::
               x < |q.graph.keys| && q.graph.keys[x].nodeId == q.source && Linked(q, x, y) ==> y == d
    requires forall x: nat, y: nat ::
               y < |q.graph.keys| && q.graph.keys[y].nodeId == q.target && Linked(q, x, y) ==> x == d
    ensures !SimpleEdges(edges)
  {
    var last := |edges| - 1;
    assert LegalAt(q, edges, 0) && LegalAt(q, edges, last);
    assert Stop(edges, 1) == d && Stop(edges, 2 * last) == d;
  }

  // Where no path within the limit is simple, the answer is not the k shortest legal paths.
  lemma AllReused(q: Query, maxEdges: int, k: nat, paths: seq<Edges>, more: bool, e: Edges)
    requires Sensible(q, maxEdges, k, paths, more) && k >= 1 && FittingEdges(q, maxEdges, e)
    requires forall r :: LegalEdges(q, r) ==> !SimpleEdges(r)
    ensures paths != [] && (forall p :: p in paths ==> !SimpleEdges(p)) && !Ranked(q, maxEdges, k, paths, more)
  {
    assert paths[0] in paths;
  }

  // ---------- within one dataset ----------

  // One definition on s, two on n, all of one entity.
  const TRIANGLE := [Dataset("n", [Def("i", "e", No), Def("i", "f", No)]), Dataset("s", [Def("i", "k", No)])]

  const TRIANGLE_KEYS := [Endpoint("n", "i", ["e"]), Endpoint("n", "i", ["f"]), Endpoint("s", "i", ["k"])]

  lemma TriangleSample(nodes: seq<Dataset>, keys: seq<Endpoint>)
    requires nodes == TRIANGLE && keys == TRIANGLE_KEYS
    ensures IsSample(nodes, keys)
  {
    assert nodes[1..] == [nodes[1]] && [nodes[1]][1..] == [];
    assert EndsOn(nodes[0]) == keys[..2] && EndsOn(nodes[1]) == keys[2..];
    assert EndsOf([nodes[1]]) == EndsOn(nodes[1]) + EndsOf([]);
    assert EndsOf(nodes) == EndsOn(nodes[0]) + EndsOf([nodes[1]]);
    TriangleShort(keys);
    TriangleValid(nodes);
    ShortSample(nodes, keys);
  }

  lemma TriangleShort(keys: seq<Endpoint>)
    requires keys == TRIANGLE_KEYS
    ensures forall e :: e in keys ==> Short(e)
    ensures forall i {:trigger keys[i]} :: 0 <= i < |keys| - 1 ==> Precedes(keys[i], keys[i + 1])
  {
    assert forall e :: e in keys ==> Short(e);
  }

  lemma TriangleValid(nodes: seq<Dataset>)
    requires nodes == TRIANGLE
    ensures ValidNodes(nodes)
  {}

  // From s back to s, unfiltered.
  ghost predicate InTriangle(q: Query) {
    DerivedFrom(q.graph, TRIANGLE) && q.allowed.None? && q.source == q.target == "s"
  }

  const THERE_AND_BACK: Edges := [(2, 0), (1, 2)]

  lemma TriangleKeys(q: Query)
    requires InTriangle(q)
    ensures q.graph.Valid() && JoinsIdentities(q.graph) && q.graph.keys == TRIANGLE_KEYS
  {
    TriangleSample(TRIANGLE, TRIANGLE_KEYS);
    SampleKeys(q.graph, TRIANGLE, TRIANGLE_KEYS);
    DerivedJoinsIdentities(q.graph, TRIANGLE);
  }

  lemma TriangleFits(q: Query, e: Edges)
    requires q.graph.Valid() && JoinsIdentities(q.graph) && q.allowed.None? && q.source == q.target == "s"
    requires q.graph.keys == TRIANGLE_KEYS && e == THERE_AND_BACK
    ensures LegalEdges(q, e)
  {
    LinkedIsSameIdentity(q, 2, 0);
    LinkedIsSameIdentity(q, 1, 2);
    assert LegalAt(q, e, 0) && LegalAt(q, e, 1);
  }

  // Source and target the same: there is a path, and every one reuses the only definition.
  lemma SameDatasetReuses(q: Query)
    requires InTriangle(q)
    ensures LegalEdges(q, THERE_AND_BACK) && forall r :: LegalEdges(q, r) ==> !SimpleEdges(r)
  {
    TriangleKeys(q);
    TriangleFits(q, THERE_AND_BACK);
    forall r | LegalEdges(q, r) ensures !SimpleEdges(r) {
      LoneDefinitionIsReused(q, r, 2);
    }
  }

  // The whole way from the datasets to the answer.
  method ReuseWithinDataset(maxEdges: int, k: nat)
    returns (q: Query, paths: seq<Edges>, more: bool, ghost found: seq<Path>)
    requires maxEdges >= 2 && k >= 1
    ensures InTriangle(q) && q.graph.Valid() && Returns(q, maxEdges, k, found, paths, more)
    ensures Ended(q, maxEdges, k, found)
    ensures paths != [] && (forall p :: p in paths ==> !SimpleEdges(p)) && !Ranked(q, maxEdges, k, paths, more)
  {
    TriangleSample(TRIANGLE, TRIANGLE_KEYS);
    var g := SampleGraph(TRIANGLE, TRIANGLE_KEYS);
    q := Query(g, "s", "s", None);
    TriangleKeys(q);
    paths, more, found := RankPaths(q, k, maxEdges, turn => false);
    SameDatasetReuses(q);
    AllReused(q, maxEdges, k, paths, more, THERE_AND_BACK);
  }

  // ---------- under a filter ----------

  // `i` on three datasets, unique on the outer two only; `j` twice on the middle one.
  const DETOUR := [
    Dataset("a", [Def("i", "k", Yes)]), Dataset("b", [Def("i", "k", Yes)]),
    Dataset("m", [Def("i", "k", No), Def("j", "e", Yes), Def("j", "h", No)])]

  const DETOUR_KEYS := [
    Endpoint("a", "i", ["k"]), Endpoint("b", "i", ["k"]),
    Endpoint("m", "i", ["k"]), Endpoint("m", "j", ["e"]), Endpoint("m", "j", ["h"])]

  lemma DetourEnds(nodes: seq<Dataset>, keys: seq<Endpoint>)
    requires nodes == DETOUR && keys == DETOUR_KEYS
    ensures EndsOf(nodes) == keys
  {
    assert EndsOn(nodes[0]) == keys[..1] && EndsOn(nodes[1]) == keys[1..2] && EndsOn(nodes[2]) == keys[2..];
    assert nodes[1..][0] == nodes[1] && nodes[1..][1..] == nodes[2..];
    assert nodes[2..][0] == nodes[2] && nodes[2..][1..] == [];
    assert EndsOf(nodes[2..]) == keys[2..];
    assert EndsOf(nodes[1..]) == keys[1..];
  }

  lemma DetourSample(nodes: seq<Dataset>, keys: seq<Endpoint>)
    requires nodes == DETOUR && keys == DETOUR_KEYS
    ensures IsSample(nodes, keys)
  {
    DetourEnds(nodes, keys);
    DetourShort(keys);
    DetourValid(nodes);
    ShortSample(nodes, keys);
  }

  lemma DetourShort(keys: seq<Endpoint>)
    requires keys == DETOUR_KEYS
    ensures forall e :: e in keys ==> Short(e)
    ensures forall i {:trigger keys[i]} :: 0 <= i < |keys| - 1 ==> Precedes(keys[i], keys[i + 1])
  {
    assert forall e :: e in keys ==> Short(e);
  }

  lemma DetourValid(nodes: seq<Dataset>)
    requires nodes == DETOUR
    ensures ValidNodes(nodes)
  {}

  // From a to b by edges that are unique at exactly one end.
  ghost predicate OnDetour(q: Query) {
    DerivedFrom(q.graph, DETOUR) && q.allowed == Some({OneToMany, ManyToOne}) && q.source == "a" && q.target == "b"
  }

  // What the sample says of a definition's uniqueness.
  function ClaimOf(e: Endpoint): Claim { if e.nodeId == "m" && e.columns != ["e"] then No else Yes }

  lemma DetourClaims(o: Occurrence)
    requires o in Occurrences(DETOUR)
    ensures o.definition.unique == ClaimOf(EndpointOf(o))
  {}

  lemma DetourKeys(q: Query)
    requires OnDetour(q)
    ensures q.graph.Valid() && JoinsIdentities(q.graph) && q.graph.keys == DETOUR_KEYS
  {
    DetourSample(DETOUR, DETOUR_KEYS);
    SampleKeys(q.graph, DETOUR, DETOUR_KEYS);
    DerivedJoinsIdentities(q.graph, DETOUR);
  }

  lemma DetourEdge(g: PathGraph, d: nat, e: OutEdge)
    requires DerivedFrom(g, DETOUR) && e in g.From(d)
    ensures d < |g.keys| && e.target < |g.keys| && d != e.target && SameIdentity(g, d, e.target)
    ensures e.multiplicity == MultiplicityBetween(ClaimOf(g.keys[d]), ClaimOf(g.keys[e.target]))
  {
    var s, t := EdgeJoins(g, DETOUR, d, e);
    DetourClaims(s);
    DetourClaims(t);
  }

  // One of the two definitions is unique and the other is not.
  ghost predicate Crosses(g: PathGraph, x: nat, y: nat) {
    x != y && SameIdentity(g, x, y) && ClaimOf(g.keys[x]) != ClaimOf(g.keys[y])
  }

  lemma LinkedCrosses(q: Query, x: nat, e: OutEdge)
    requires DerivedFrom(q.graph, DETOUR) && q.allowed == Some({OneToMany, ManyToOne})
    requires e in q.graph.From(x) && Permits(q, e.multiplicity)
    ensures Crosses(q.graph, x, e.target)
  {
    DetourEdge(q.graph, x, e);
  }

  lemma CrossingLinked(q: Query, x: nat, y: nat)
    requires DerivedFrom(q.graph, DETOUR) && q.allowed == Some({OneToMany, ManyToOne}) && Crosses(q.graph, x, y)
    ensures Linked(q, x, y)
  {
    EveryPairLinked(q.graph, DETOUR, x, y);
    var e :| e in q.graph.From(x) && e.target == y;
    DetourEdge(q.graph, x, e);
  }

  // What of the request the argument needs.
  ghost predicate Detoured(q: Query) {
    && q.graph.Valid() && q.graph.keys == DETOUR_KEYS && q.source == "a" && q.target == "b"
    && forall x: nat, y: nat {:trigger Linked(q, x, y)} :: Linked(q, x, y) <==> Crosses(q.graph, x, y)
  }

  lemma DetourIsDetoured(q: Query)
    requires OnDetour(q)
    ensures Detoured(q)
  {
    DetourKeys(q);
    forall x: nat, y: nat ensures Linked(q, x, y) <==> Crosses(q.graph, x, y) {
      if Linked(q, x, y) {
        var e :| e in q.graph.From(x) && e.target == y && Permits(q, e.multiplicity);
        LinkedCrosses(q, x, e);
      }
      if Crosses(q.graph, x, y) { CrossingLinked(q, x, y); }
    }
  }

  const THROUGH_TWICE: Edges := [(0, 2), (3, 4), (2, 1)]

  lemma DetourFits(q: Query, e: Edges)
    requires Detoured(q) && e == THROUGH_TWICE
    ensures LegalEdges(q, e)
  {
    assert Linked(q, 0, 2) && Linked(q, 3, 4) && Linked(q, 2, 1);
    assert LegalAt(q, e, 0) && LegalAt(q, e, 1) && LegalAt(q, e, 2);
  }

  lemma DetourBottleneck(q: Query, r: Edges)
    requires Detoured(q) && LegalEdges(q, r)
    ensures !SimpleEdges(r)
  {
    var keys := q.graph.keys;
    assert |keys| == 5;
    BottleneckIsReused(q, r, 2);
  }

  // Filtered: the only way passes the middle definition of `i` twice.
  lemma FilteredReuses(q: Query)
    requires OnDetour(q)
    ensures LegalEdges(q, THROUGH_TWICE) && forall r :: LegalEdges(q, r) ==> !SimpleEdges(r)
  {
    DetourIsDetoured(q);
    DetourFits(q, THROUGH_TWICE);
    forall r | LegalEdges(q, r) ensures !SimpleEdges(r) {
      DetourBottleneck(q, r);
    }
  }

  // The whole way from the datasets to the answer.
  method ReuseUnderFilter(maxEdges: int, k: nat)
    returns (q: Query, paths: seq<Edges>, more: bool, ghost found: seq<Path>)
    requires maxEdges >= 3 && k >= 1
    ensures OnDetour(q) && q.graph.Valid() && Returns(q, maxEdges, k, found, paths, more)
    ensures Ended(q, maxEdges, k, found)
    ensures paths != [] && (forall p :: p in paths ==> !SimpleEdges(p)) && !Ranked(q, maxEdges, k, paths, more)
  {
    DetourSample(DETOUR, DETOUR_KEYS);
    var g := SampleGraph(DETOUR, DETOUR_KEYS);
    q := Query(g, "a", "b", Some({OneToMany, ManyToOne}));
    DetourKeys(q);
    paths, more, found := RankPaths(q, k, maxEdges, turn => false);
    FilteredReuses(q);
    AllReused(q, maxEdges, k, paths, more, THROUGH_TWICE);
  }
}
