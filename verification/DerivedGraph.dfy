// The path graph of a derived snapshot: what the searches rely on holds of it.
module DerivedGraph {
  import opened Model
  import opened Derivation
  import opened DerivedRelationships
  import opened PathGraphs
  import opened GraphBuild
  import opened EdgePaths
  import opened RankedPaths
  import opened FirstPath

  lemma FarEnd(g: PathGraph, nodes: seq<Dataset>, relationships: seq<Relationship>, d: nat, x: nat, y: nat)
    requires ValidEdges(nodes, relationships) && Built(g, nodes, relationships)
    requires (d, x) in g.edgeByPair && (d, y) in g.edgeByPair && g.edgeByPair[(d, x)] == g.edgeByPair[(d, y)]
    ensures x == y
  {
    var r :| r in relationships && r.edgeId == g.edgeByPair[(d, x)] && Connects(g.keys, r, d, x);
    var s :| s in relationships && s.edgeId == g.edgeByPair[(d, y)] && Connects(g.keys, s, d, y);
    IdIdentifies(relationships, r, s);
  }

  lemma EdgePaired(g: PathGraph, nodes: seq<Dataset>, relationships: seq<Relationship>, d: nat, e: OutEdge)
    requires Built(g, nodes, relationships) && e in g.From(d)
    ensures d < |g.keys| && e.target < |g.keys|
    ensures (d, e.target) in g.edgeByPair && g.edgeByPair[(d, e.target)] == e.edgeId
  {
    assert e in ListAt(g.edges, d);
    var r :| r in relationships && Leaves(g.keys, r, d, e);
    assert Connects(g.keys, r, d, e.target);
  }

  // The constructor establishes what the searches require.
  lemma BuiltIsValid(g: PathGraph, nodes: seq<Dataset>, relationships: seq<Relationship>)
    requires ValidEdges(nodes, relationships) && Built(g, nodes, relationships)
    ensures g.Valid()
  {
    forall node, d: nat {:trigger d in g.On(node)} | d in g.On(node) ensures d < |g.keys| && g.keys[d].nodeId == node {
      assert d in ListAt(g.onDataset, node);
    }
    forall d: nat | d < |g.keys| ensures d in g.On(g.keys[d].nodeId) {
      assert d in ListAt(g.onDataset, g.keys[d].nodeId);
    }
    forall d: nat, e {:trigger e in g.From(d)} | e in g.From(d)
      ensures d < |g.keys| && e.target < |g.keys|
      ensures (d, e.target) in g.edgeByPair && g.edgeByPair[(d, e.target)] == e.edgeId
    {
      EdgePaired(g, nodes, relationships, d, e);
    }
    forall d: nat, x: nat, y: nat | (d, x) in g.edgeByPair && (d, y) in g.edgeByPair
                                      && g.edgeByPair[(d, x)] == g.edgeByPair[(d, y)]
      ensures x == y
    {
      FarEnd(g, nodes, relationships, d, x, y);
    }
  }

  // Derived relationships form a valid snapshot as soon as their IDs differ.
  lemma DerivedEdgesValid(nodes: seq<Dataset>)
    requires ValidNodes(nodes) && DistinctEndpoints(Occurrences(nodes)) && DistinctIds(Derived(Occurrences(nodes)))
    ensures ValidEdges(nodes, Derived(Occurrences(nodes)))
  {
    var os := Occurrences(nodes);
    forall r | r in Derived(os)
      ensures r.edgeId == EdgeIdFor(r.a, r.b) && r.a in Ends(os) && r.b in Ends(os) && r.a.identityId == r.b.identityId
    {
      DerivedIsCanonical(os, r);
    }
  }

  // The graph of `nodes` and the relationships derived from them.
  ghost predicate DerivedFrom(g: PathGraph, nodes: seq<Dataset>) {
    && ValidNodes(nodes) && DistinctEndpoints(Occurrences(nodes)) && DistinctIds(Derived(Occurrences(nodes)))
    && Built(g, nodes, Derived(Occurrences(nodes)))
  }

  // Deriving the relationships of datasets and laying out their graph.
  method DeriveGraph(nodes: seq<Dataset>) returns (g: PathGraph)
    requires ValidNodes(nodes) && DistinctEndpoints(Occurrences(nodes)) && DistinctIds(Derived(Occurrences(nodes)))
    ensures DerivedFrom(g, nodes)
  {
    var relationships := DeriveRelationships(nodes);
    DerivedEdgesValid(nodes);
    g := BuildGraph(nodes, relationships);
  }

  lemma NumberedOccurrence(g: PathGraph, nodes: seq<Dataset>, d: nat) returns (o: Occurrence)
    requires DerivedFrom(g, nodes) && d < |g.keys|
    ensures o in Occurrences(nodes) && EndpointOf(o) == g.keys[d]
  {
    assert g.keys[d] in g.keys;
    o :| o in Occurrences(nodes) && EndpointOf(o) == g.keys[d];
  }

  // The relationship behind a directed edge, and the definitions it was derived from.
  lemma EdgeRelates(g: PathGraph, os: set<Occurrence>, relationships: seq<Relationship>, d: nat, e: OutEdge)
    returns (r: Relationship, u: Occurrence, v: Occurrence)
    requires DistinctEndpoints(os) && relationships == Derived(os) && LaidOut(g.keys, g.edges, relationships)
    requires e in g.From(d)
    ensures r in relationships && Leaves(g.keys, r, d, e) && r.a != r.b && r.a.identityId == r.b.identityId
    ensures u in os && v in os && r.a == EndpointOf(u) && r.b == EndpointOf(v)
    ensures r.aToB == DerivedDirection(u.definition, v.definition)
    ensures r.bToA == DerivedDirection(v.definition, u.definition)
  {
    assert e in ListAt(g.edges, d);
    r :| r in relationships && Leaves(g.keys, r, d, e);
    DerivedIsCanonical(os, r);
    u, v :| u in os && v in os && r.a == EndpointOf(u) && r.b == EndpointOf(v)
      && r.aToB == DerivedDirection(u.definition, v.definition)
      && r.bToA == DerivedDirection(v.definition, u.definition);
  }

  // A directed edge carries the claims of the two definitions it joins.
  lemma EdgeJoins(g: PathGraph, nodes: seq<Dataset>, d: nat, e: OutEdge) returns (s: Occurrence, t: Occurrence)
    requires DerivedFrom(g, nodes) && e in g.From(d)
    ensures d < |g.keys| && e.target < |g.keys| && d != e.target
    ensures s in Occurrences(nodes) && EndpointOf(s) == g.keys[d]
    ensures t in Occurrences(nodes) && EndpointOf(t) == g.keys[e.target]
    ensures s.definition.identityId == t.definition.identityId
    ensures e.multiplicity == MultiplicityBetween(s.definition.unique, t.definition.unique)
  {
    var r, u, v := EdgeRelates(g, Occurrences(nodes), Derived(Occurrences(nodes)), d, e);
    if r.a == g.keys[d] {
      s, t := u, v;
    } else {
      s, t := v, u;
    }
  }

  // Its directed edges join exactly the different definitions of one identity.
  lemma DerivedJoinsIdentities(g: PathGraph, nodes: seq<Dataset>)
    requires DerivedFrom(g, nodes)
    ensures g.Valid() && JoinsIdentities(g)
  {
    DerivedEdgesValid(nodes);
    BuiltIsValid(g, nodes, Derived(Occurrences(nodes)));
    forall d: nat, e | e in g.From(d) ensures d != e.target && SameIdentity(g, d, e.target) {
      var s, t := EdgeJoins(g, nodes, d, e);
    }
    forall x: nat, y: nat | x != y && SameIdentity(g, x, y) ensures exists e :: e in g.From(x) && e.target == y {
      EveryPairLinked(g, nodes, x, y);
    }
  }

  lemma Listed(g: PathGraph, nodes: seq<Dataset>, relationships: seq<Relationship>, r: Relationship, d: nat, e: OutEdge)
    requires Built(g, nodes, relationships) && r in relationships && Leaves(g.keys, r, d, e)
    ensures e in g.From(d)
  {
    assert e in ListAt(g.edges, d);
  }

  lemma EveryPairLinked(g: PathGraph, nodes: seq<Dataset>, x: nat, y: nat)
    requires DerivedFrom(g, nodes) && x != y && SameIdentity(g, x, y)
    ensures exists e :: e in g.From(x) && e.target == y
  {
    var os := Occurrences(nodes);
    var s := NumberedOccurrence(g, nodes, x);
    var t := NumberedOccurrence(g, nodes, y);
    var r := PairRelated(os, s, t);
    var e := OutEdge(y, if r.a == g.keys[x] then r.aToB.multiplicity else r.bToA.multiplicity, r.edgeId);
    Listed(g, nodes, Derived(os), r, x, e);
  }

  // On a derived graph, unfiltered and between different datasets, every answer is legal.
  lemma DerivedAnswersLegal(q: Query, nodes: seq<Dataset>, maxEdges: int, k: nat, paths: seq<Edges>, more: bool)
    requires DerivedFrom(q.graph, nodes) && q.allowed.None? && q.source != q.target
    requires Sensible(q, maxEdges, k, paths, more)
    ensures forall p :: p in paths ==> LegalPath(q, maxEdges, p)
  {
    DerivedJoinsIdentities(q.graph, nodes);
    AnswersAreSimple(q, maxEdges, k, paths, more);
  }
}
