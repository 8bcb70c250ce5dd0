// `_component_count`: how many separate parts the datasets of a document fall into.
module ComponentCount {
  import opened Model
  import opened Graph
  import opened UnionFind

  // The relationships with both ends among the datasets.
  function Inner(datasets: set<string>, edges: seq<Relationship>): set<Relationship> {
    set e | e in edges && e.a.nodeId in datasets && e.b.nodeId in datasets
  }

  ghost function Component(datasets: set<string>, edges: set<Relationship>, x: string): set<string> {
    set y | y in datasets && Connected(edges, x, y)
  }

  ghost function ComponentsOf(datasets: set<string>, edges: set<Relationship>, nodes: set<string>): set<set<string>> {
    set x | x in nodes :: Component(datasets, edges, x)
  }

  ghost function Components(datasets: set<string>, edges: set<Relationship>): set<set<string>> {
    ComponentsOf(datasets, edges, datasets)
  }

  // ---------- links without rank ----------

  // A rank that rises along the new link as well; the program keeps none.
  ghost function Raised(rank: Ranks, low: string, high: string): Ranks
    requires low in rank && high in rank
  {
    if rank[low] < rank[high] then rank else rank[high := rank[low] + 1]
  }

  lemma AnyLinkRises(parent: Parents, rank: Ranks, low: string, high: string)
    requires Rising(parent, rank) && low in parent && high in parent && low != high && parent[high] == high
    ensures Rising(parent[low := high], Raised(rank, low, high))
  {
    var after, rank' := parent[low := high], Raised(rank, low, high);
    forall y | y in after ensures Climbs(after, rank', y) {
      assert Climbs(parent, rank, y);
    }
  }

  // Setting a root's link, possibly to itself.
  ghost predicate Links(parent: Parents, rank: Ranks, after: Parents, rank': Ranks, low: string, high: string) {
    && Rising(parent, rank) && Rising(after, rank') && after.Keys == parent.Keys
    && forall y {:trigger RootOf(after, rank', y)} :: y in parent ==>
         RootOf(after, rank', y) == if RootOf(parent, rank, y) == low then high else RootOf(parent, rank, y)
  }

  lemma LinkRoots(parent: Parents, rank: Ranks, low: string, high: string)
    requires Rising(parent, rank) && low in parent && high in parent && parent[low] == low && parent[high] == high
    ensures Links(parent, rank, parent[low := high], if low == high then rank else Raised(rank, low, high), low, high)
  {
    var after := parent[low := high];
    if low == high {
      assert after == parent;
    } else {
      AnyLinkRises(parent, rank, low, high);
      forall y {:trigger RootOf(after, Raised(rank, low, high), y)} | y in parent
        ensures RootOf(after, Raised(rank, low, high), y) ==
                if RootOf(parent, rank, y) == low then high else RootOf(parent, rank, y)
      {
        LinkMoves(parent, rank, after, Raised(rank, low, high), low, high, y);
      }
    }
  }

  // ---------- roots and connection ----------

  // Same root, same component: for the edges looked at so far.
  ghost predicate Tracks(parent: Parents, rank: Ranks, edges: set<Relationship>) {
    && Rising(parent, rank)
    && (forall e :: e in edges ==> SameRoot(parent, rank, e.a.nodeId, e.b.nodeId))
    && (forall x, y :: SameRoot(parent, rank, x, y) ==> Connected(edges, x, y))
  }

  ghost predicate SameRoot(parent: Parents, rank: Ranks, x: string, y: string)
    requires Rising(parent, rank)
  {
    x in parent && y in parent && RootOf(parent, rank, x) == RootOf(parent, rank, y)
  }

  lemma {:induction false} WalkKeepsRoot(parent: Parents, rank: Ranks, edges: set<Relationship>, w: seq<string>)
    requires Tracks(parent, rank, edges) && Walk(edges, w) && w[0] in parent
    ensures SameRoot(parent, rank, w[0], w[|w| - 1])
    decreases |w|
  {
    if |w| <= 1 {
    } else {
      var init := w[..|w| - 1];
      forall i | 0 <= i < |init| - 1 ensures Adjacent(edges, init[i], init[i + 1]) {
        assert Adjacent(edges, w[i], w[i + 1]);
      }
      WalkKeepsRoot(parent, rank, edges, init);
      assert Adjacent(edges, w[|w| - 2], w[|w| - 2 + 1]);
      var e :| e in edges && e.Joins(w[|w| - 2], w[|w| - 1]);
      assert SameRoot(parent, rank, e.a.nodeId, e.b.nodeId);
    }
  }

  lemma TrackedConnection(parent: Parents, rank: Ranks, edges: set<Relationship>, x: string, y: string)
    requires Tracks(parent, rank, edges) && x in parent
    ensures Connected(edges, x, y) <==> SameRoot(parent, rank, x, y)
  {
    if Connected(edges, x, y) {
      var w :| Walk(edges, w) && w[0] == x && w[|w| - 1] == y;
      WalkKeepsRoot(parent, rank, edges, w);
    }
  }

  lemma HalvedTracks(parent: Parents, after: Parents, rank: Ranks, edges: set<Relationship>)
    requires Tracks(parent, rank, edges) && SameRoots(parent, after, rank)
    ensures Tracks(after, rank, edges)
  {
    forall x, y ensures SameRoot(after, rank, x, y) <==> SameRoot(parent, rank, x, y) {
      assert x in parent ==> RootOf(after, rank, x) == RootOf(parent, rank, x);
      assert y in parent ==> RootOf(after, rank, y) == RootOf(parent, rank, y);
    }
  }

  // The roots of an edge's ends joined, the edge is accounted for.
  lemma LinkTracks(parent: Parents, rank: Ranks, after: Parents, rank': Ranks, edges: set<Relationship>,
                   e: Relationship)
    requires Tracks(parent, rank, edges) && e.a.nodeId in parent && e.b.nodeId in parent
    requires Links(parent, rank, after, rank', RootOf(parent, rank, e.a.nodeId), RootOf(parent, rank, e.b.nodeId))
    ensures Tracks(after, rank', edges + {e})
  {
    forall x, y | SameRoot(parent, rank, x, y) ensures SameRoot(after, rank', x, y) {
      assert RootOf(after, rank', x) == RootOf(after, rank', y);
    }
    assert SameRoot(after, rank', e.a.nodeId, e.b.nodeId) by {
      assert RootOf(after, rank', e.a.nodeId) == RootOf(after, rank', e.b.nodeId);
    }
    forall x, y | SameRoot(after, rank', x, y) ensures Connected(edges + {e}, x, y) {
      LinkedConnection(parent, rank, after, rank', edges, e, x, y);
    }
  }

  lemma LinkedConnection(parent: Parents, rank: Ranks, after: Parents, rank': Ranks, edges: set<Relationship>,
                         e: Relationship, x: string, y: string)
    requires Tracks(parent, rank, edges) && e.a.nodeId in parent && e.b.nodeId in parent
    requires Links(parent, rank, after, rank', RootOf(parent, rank, e.a.nodeId), RootOf(parent, rank, e.b.nodeId))
    requires SameRoot(after, rank', x, y)
    ensures Connected(edges + {e}, x, y)
  {
    var a, b := e.a.nodeId, e.b.nodeId;
    assert RootOf(after, rank', x) == RootOf(after, rank', y);
    if SameRoot(parent, rank, x, y) {
      ConnectedMonotone(edges, edges + {e}, x, y);
    } else if SameRoot(parent, rank, x, a) {
      assert SameRoot(parent, rank, y, b);
      Bridged(edges, e, x, y);
    } else {
      assert SameRoot(parent, rank, y, a) && SameRoot(parent, rank, x, b);
      Bridged(edges, e, y, x);
      ConnectedSym(edges + {e}, y, x);
    }
  }

  lemma Bridged(edges: set<Relationship>, e: Relationship, x: string, y: string)
    requires Connected(edges, x, e.a.nodeId) && Connected(edges, y, e.b.nodeId)
    ensures Connected(edges + {e}, x, y)
  {
    var more := edges + {e};
    ConnectedMonotone(edges, more, x, e.a.nodeId);
    ConnectedMonotone(edges, more, y, e.b.nodeId);
    ConnectedEdge(more, e, e.a.nodeId, e.b.nodeId);
    ConnectedSym(more, y, e.b.nodeId);
    ConnectedTrans(more, x, e.a.nodeId, e.b.nodeId);
    ConnectedTrans(more, x, e.b.nodeId, y);
  }

  // ---------- counting ----------

  ghost function RootsOf(parent: Parents, rank: Ranks, nodes: set<string>): set<string>
    requires Rising(parent, rank) && nodes <= parent.Keys
  {
    set x | x in nodes :: RootOf(parent, rank, x)
  }

  lemma RootsWith(parent: Parents, rank: Ranks, rest: set<string>, x: string)
    requires Rising(parent, rank) && rest <= parent.Keys && x in parent
    ensures RootsOf(parent, rank, rest + {x}) == RootsOf(parent, rank, rest) + {RootOf(parent, rank, x)}
  {}

  lemma ComponentsWith(datasets: set<string>, edges: set<Relationship>, rest: set<string>, x: string)
    ensures ComponentsOf(datasets, edges, rest + {x})
         == ComponentsOf(datasets, edges, rest) + {Component(datasets, edges, x)}
  {}

  lemma {:induction false} RootsCount(parent: Parents, rank: Ranks, edges: set<Relationship>, nodes: set<string>,
                                      datasets: set<string>)
    requires Tracks(parent, rank, edges) && nodes <= datasets == parent.Keys
    ensures |RootsOf(parent, rank, nodes)| == |ComponentsOf(datasets, edges, nodes)|
  {
    if nodes == {} {
      assert RootsOf(parent, rank, nodes) == {} && ComponentsOf(datasets, edges, nodes) == {};
    } else {
      var x :| x in nodes;
      var rest := nodes - {x};
      assert nodes == rest + {x};
      RootsCount(parent, rank, edges, rest, datasets);
      RootsWith(parent, rank, rest, x);
      ComponentsWith(datasets, edges, rest, x);
      RootNew(parent, rank, edges, rest, datasets, x);
    }
  }

  lemma SameComponent(parent: Parents, rank: Ranks, edges: set<Relationship>, datasets: set<string>, x: string,
                      y: string)
    requires Tracks(parent, rank, edges) && datasets == parent.Keys && x in datasets && y in datasets
    ensures RootOf(parent, rank, y) == RootOf(parent, rank, x) <==>
              Component(datasets, edges, y) == Component(datasets, edges, x)
  {
    forall z | z in datasets
      ensures z in Component(datasets, edges, x) <==> RootOf(parent, rank, z) == RootOf(parent, rank, x)
      ensures z in Component(datasets, edges, y) <==> RootOf(parent, rank, z) == RootOf(parent, rank, y)
    {
      TrackedConnection(parent, rank, edges, x, z);
      TrackedConnection(parent, rank, edges, y, z);
    }
    assert y in Component(datasets, edges, y);
  }

  lemma RootNew(parent: Parents, rank: Ranks, edges: set<Relationship>, rest: set<string>, datasets: set<string>,
                x: string)
    requires Tracks(parent, rank, edges) && rest <= datasets == parent.Keys && x in datasets
    ensures RootOf(parent, rank, x) in RootsOf(parent, rank, rest) <==>
            Component(datasets, edges, x) in ComponentsOf(datasets, edges, rest)
  {
    forall y | y in rest
      ensures RootOf(parent, rank, y) == RootOf(parent, rank, x) <==>
                Component(datasets, edges, y) == Component(datasets, edges, x)
    {
      SameComponent(parent, rank, edges, datasets, x, y);
    }
  }

  // Join the ends of every edge.
  method JoinEnds(nodes: seq<string>, edges: seq<Relationship>) returns (parent: Parents, ghost rank: Ranks)
    requires forall e :: e in edges ==> e.a.nodeId in nodes
    ensures forall x :: x in parent <==> x in nodes
    ensures Tracks(parent, rank, Inner(parent.Keys, edges))
  {
    parent := map x | x in nodes :: x;
    rank := map x | x in nodes :: 0;
    assert Tracks(parent, rank, {}) by {
      forall x, y | SameRoot(parent, rank, x, y) ensures Connected({}, x, y) {
        ConnectedRefl({}, x);
      }
    }
    ghost var datasets := parent.Keys;
    assert Inner(datasets, edges[..0]) == {};
    for n := 0 to |edges|
      invariant parent.Keys == datasets && Tracks(parent, rank, Inner(datasets, edges[..n]))
    {
      var e := edges[n];
      assert edges[..n + 1] == edges[..n] + [e] && e in edges;
      if e.b.nodeId in parent {
        parent, rank := JoinEdge(parent, rank, Inner(datasets, edges[..n]), e);
        assert Inner(datasets, edges[..n + 1]) == Inner(datasets, edges[..n]) + {e};
      } else {
        assert Inner(datasets, edges[..n + 1]) == Inner(datasets, edges[..n]);
      }
    }
    assert edges[..|edges|] == edges;
  }

  method JoinEdge(parent: Parents, ghost rank: Ranks, ghost edges: set<Relationship>, e: Relationship)
    returns (parent': Parents, ghost rank': Ranks)
    requires Tracks(parent, rank, edges) && e.a.nodeId in parent && e.b.nodeId in parent
    ensures parent'.Keys == parent.Keys && Tracks(parent', rank', edges + {e})
  {
    var halved, high := FindRoot(parent, rank, e.b.nodeId);
    HalvedTracks(parent, halved, rank, edges);
    var again, low := FindRoot(halved, rank, e.a.nodeId);
    HalvedTracks(halved, again, rank, edges);
    assert RootOf(again, rank, e.b.nodeId) == high && RootOf(again, rank, e.a.nodeId) == low;
    LinkRoots(again, rank, low, high);
    parent' := again[low := high];
    rank' := if low == high then rank else Raised(rank, low, high);
    LinkTracks(again, rank, parent', rank', edges, e);
  }

  // The number of connected components, counting the relationships between the datasets.
  method CountComponents(nodes: seq<string>, edges: seq<Relationship>) returns (count: nat)
    requires forall e :: e in edges ==> e.a.nodeId in nodes
    ensures var datasets := set x | x in nodes;
            count == |Components(datasets, Inner(datasets, edges))|
  {
    var parent, rank := JoinEnds(nodes, edges);
    ghost var datasets := set x | x in nodes;
    assert parent.Keys == datasets;
    var roots: set<string> := {};
    assert RootsOf(parent, rank, First(nodes, 0)) == {};
    for n := 0 to |nodes|
      invariant Tracks(parent, rank, Inner(datasets, edges)) && parent.Keys == datasets
      invariant roots == RootsOf(parent, rank, First(nodes, n))
    {
      ghost var before := parent;
      var root;
      parent, root := FindRoot(parent, rank, nodes[n]);
      HalvedTracks(before, parent, rank, Inner(datasets, edges));
      RootsNext(before, parent, rank, nodes, n);
      roots := roots + {root};
    }
    assert First(nodes, |nodes|) == datasets;
    RootsCount(parent, rank, Inner(datasets, edges), datasets, datasets);
    return |roots|;
  }

  function First(nodes: seq<string>, n: nat): set<string>
    requires n <= |nodes|
  {
    set x | x in nodes[..n]
  }

  lemma RootsNext(parent: Parents, after: Parents, rank: Ranks, nodes: seq<string>, n: nat)
    requires SameRoots(parent, after, rank) && n < |nodes| && forall x :: x in nodes ==> x in parent
    ensures RootsOf(after, rank, First(nodes, n + 1))
         == RootsOf(parent, rank, First(nodes, n)) + {RootOf(parent, rank, nodes[n])}
  {
    assert nodes[..n + 1] == nodes[..n] + [nodes[n]];
    assert forall x :: x in nodes ==> RootOf(after, rank, x) == RootOf(parent, rank, x);
  }
}
