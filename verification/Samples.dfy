// Small snapshots, for inputs on which a property fails.
module Samples {
  import opened Order
  import opened Model
  import opened Derivation
  import opened DerivedRelationships
  import opened PathGraphs
  import opened Routes
  import opened EdgePaths
  import opened GraphBuild
  import opened DerivedGraph
  import opened FirstPath

  function Def(identity: string, column: string, unique: Claim): Definition {
    Definition(identity, [column], UnknownUniverse, unique, Unknown, Unknown)
  }

  predicate Letter(s: string) { |s| == 1 && 'a' <= s[0] <= 'z' }

  predicate Short(e: Endpoint) {
    Letter(e.nodeId) && Letter(e.identityId) && |e.columns| == 1 && Letter(e.columns[0])
  }

  lemma ShortSide(e: Endpoint)
    requires Short(e)
    ensures Side(e) == [e.nodeId[0], ':', e.identityId[0], ':', e.columns[0][0]]
  {
    assert JoinedBy(e.columns, "+") == e.columns[0];
    assert e.nodeId == [e.nodeId[0]] && e.identityId == [e.identityId[0]] && e.columns[0] == [e.columns[0][0]];
  }

  lemma ShortIsPlain(e: Endpoint)
    requires Short(e)
    ensures Plain(e)
  {
    ShortSide(e);
  }

  predicate Precedes(e: Endpoint, f: Endpoint)
    requires Short(e) && Short(f)
  {
    || e.nodeId[0] < f.nodeId[0]
    || (e.nodeId == f.nodeId
        && (e.identityId[0] < f.identityId[0]
            || (e.identityId == f.identityId && e.columns[0][0] < f.columns[0][0])))
  }

  lemma LetterLeq(s: string, t: string)
    requires Letter(s) && Letter(t)
    ensures TextLeq(s, t) <==> s[0] <= t[0]
  {
    assert s[1..] == [] && t[1..] == [];
  }

  // Tuples of three are ordered by the first position where they differ.
  lemma ThreeLeq(a: seq<Key>, b: seq<Key>)
    requires |a| == |b| == 3
    requires Leq(a[0], b[0]) && (a[0] == b[0] ==> Leq(a[1], b[1]) && (a[1] == b[1] ==> Leq(a[2], b[2])))
    ensures TupleLeq(a, b)
  {
    assert a[1..][0] == a[1] && b[1..][0] == b[1];
    assert a[1..][1..] == [a[2]] && b[1..][1..] == [b[2]];
    assert TupleLeq([a[2]], [b[2]]) || a[0] != b[0] || a[1] != b[1] by {
      assert [a[2]][1..] == [] == [b[2]][1..];
    }
  }

  lemma PrecedesLeq(e: Endpoint, f: Endpoint)
    requires Short(e) && Short(f) && Precedes(e, f)
    ensures Leq(EndpointKey(e), EndpointKey(f))
  {
    LetterLeq(e.nodeId, f.nodeId);
    LetterLeq(e.identityId, f.identityId);
    LetterLeq(e.columns[0], f.columns[0]);
    var xs, ys := Texts(e.columns), Texts(f.columns);
    assert xs == [Text(e.columns[0])] && ys == [Text(f.columns[0])];
    if e.nodeId == f.nodeId && e.identityId == f.identityId {
      assert TupleLeq(xs, ys) by { assert xs[1..] == [] == ys[1..]; }
    }
    ThreeLeq(EndpointKey(e).items, EndpointKey(f).items);
  }

  // ---------- the definitions of a sample ----------

  function EndsOn(node: Dataset): seq<Endpoint> {
    seq(|node.definitions|, i requires 0 <= i < |node.definitions| =>
      EndpointOf(Occurrence(node.nodeId, node.definitions[i])))
  }

  function EndsOf(nodes: seq<Dataset>): seq<Endpoint> {
    if nodes == [] then [] else EndsOn(nodes[0]) + EndsOf(nodes[1..])
  }

  lemma EndsOnMembers(node: Dataset, e: Endpoint)
    ensures e in EndsOn(node) <==> e in Ends(OccurrencesOn(node))
  {
    if e in Ends(OccurrencesOn(node)) {
      var o :| o in OccurrencesOn(node) && EndpointOf(o) == e;
      var i :| 0 <= i < |node.definitions| && node.definitions[i] == o.definition;
      assert EndsOn(node)[i] == e;
    }
    if e in EndsOn(node) {
      var i :| 0 <= i < |EndsOn(node)| && EndsOn(node)[i] == e;
      assert Occurrence(node.nodeId, node.definitions[i]) in OccurrencesOn(node);
    }
  }

  lemma {:induction false} EndsOfMembers(nodes: seq<Dataset>, e: Endpoint)
    ensures e in EndsOf(nodes) <==> e in Ends(Occurrences(nodes))
  {
    if nodes == [] {
    } else {
      EndsOfMembers(nodes[1..], e);
      EndsOnMembers(nodes[0], e);
      assert nodes == [nodes[0]] + nodes[1..];
      assert Occurrences(nodes) == OccurrencesOn(nodes[0]) + Occurrences(nodes[1..]);
      assert Ends(Occurrences(nodes)) == Ends(OccurrencesOn(nodes[0])) + Ends(Occurrences(nodes[1..]));
    }
  }

  // Datasets and their definitions are given in order, with names that edge IDs give back.
  ghost predicate IsSample(nodes: seq<Dataset>, keys: seq<Endpoint>) {
    && ValidNodes(nodes) && keys == EndsOf(nodes) && (forall e :: e in keys ==> Plain(e))
    && NoDuplicates(keys) && Ascending(keys, EndpointKey)
  }

  // One-letter names are, as soon as neighbours are in order.
  lemma ShortSample(nodes: seq<Dataset>, keys: seq<Endpoint>)
    requires ValidNodes(nodes) && keys == EndsOf(nodes) && forall e :: e in keys ==> Short(e)
    requires forall i {:trigger keys[i]} :: 0 <= i < |keys| - 1 ==> Precedes(keys[i], keys[i + 1])
    ensures IsSample(nodes, keys)
  {
    forall e | e in keys ensures Plain(e) {
      ShortIsPlain(e);
    }
    forall i | 0 <= i < |keys| - 1 ensures Leq(EndpointKey(keys[i]), EndpointKey(keys[i + 1])) {
      PrecedesLeq(keys[i], keys[i + 1]);
    }
    NeighboursAscend(keys, EndpointKey);
    forall i, j | 0 <= i < j < |keys| ensures keys[i] != keys[j] {
      PrecedesAcross(keys, i, j);
    }
  }

  lemma PrecedesAcross(keys: seq<Endpoint>, i: nat, j: nat)
    requires forall e :: e in keys ==> Short(e)
    requires forall i {:trigger keys[i]} :: 0 <= i < |keys| - 1 ==> Precedes(keys[i], keys[i + 1])
    requires i < j < |keys|
    ensures Precedes(keys[i], keys[j])
    decreases j
  {
    if i < j - 1 { PrecedesAcross(keys, i, j - 1); }
    assert Precedes(keys[j - 1], keys[j]);
  }

  // Its definitions are numbered as given.
  lemma SampleKeys(g: PathGraph, nodes: seq<Dataset>, keys: seq<Endpoint>)
    requires IsSample(nodes, keys) && DerivedFrom(g, nodes)
    ensures g.keys == keys
  {
    forall e ensures e in keys <==> e in g.keys {
      EndsOfMembers(nodes, e);
    }
    forall e, f | e in keys && f in keys && EndpointKey(e) == EndpointKey(f) ensures e == f {
      EndpointKeyInjective(e, f);
    }
    SortedSame(keys, g.keys, EndpointKey);
  }

  // Its derived relationships have different edge IDs, so there is a graph of it.
  lemma SampleIds(nodes: seq<Dataset>, keys: seq<Endpoint>)
    requires IsSample(nodes, keys)
    ensures DistinctEndpoints(Occurrences(nodes)) && DistinctIds(Derived(Occurrences(nodes)))
  {
    ValidNodesDistinct(nodes);
    forall o | o in Occurrences(nodes) ensures Plain(EndpointOf(o)) {
      EndsOfMembers(nodes, EndpointOf(o));
    }
    PlainIdsDistinct(Occurrences(nodes));
  }

  method SampleGraph(nodes: seq<Dataset>, ghost keys: seq<Endpoint>) returns (g: PathGraph)
    requires IsSample(nodes, keys)
    ensures DerivedFrom(g, nodes) && g.keys == keys
  {
    SampleIds(nodes, keys);
    g := DeriveGraph(nodes);
    SampleKeys(g, nodes, keys);
  }

  // The definitions on a dataset, by number.
  lemma SampleOn(g: PathGraph, nodes: seq<Dataset>, node: string, numbers: seq<nat>)
    requires DerivedFrom(g, nodes) && Increasing(numbers)
    requires forall d: nat :: d in numbers <==> d < |g.keys| && g.keys[d].nodeId == node
    ensures g.On(node) == numbers
  {
    var on := ListAt(g.onDataset, node);
    assert NumbersOf(g.keys, node, on);
    SortedSame(on, numbers, (d: nat) => Num(d));
  }

  lemma AllEqual(list: seq<OutEdge>, e: OutEdge)
    requires |list| > 1 && forall x :: x in list ==> x == e
    ensures list[0] == e && list[1] == e
  {
    assert list[0] in list && list[1] in list;
  }

  lemma ListsOnce(d: nat, list: seq<OutEdge>, e: OutEdge)
    requires InOrderAt(d, list) && e in list && e.target != d && forall x :: x in list ==> x == e
    ensures |list| == 1 && list[0] == e
  {
    if |list| > 1 { AllEqual(list, e); }
  }

  // A definition whose identity has one other member has one directed edge.
  lemma OneEdge(g: PathGraph, nodes: seq<Dataset>, d: nat, t: nat)
    requires DerivedFrom(g, nodes) && d != t
    requires forall x: nat :: SameIdentity(g, d, x) <==> x == d || x == t
    ensures |g.From(d)| == 1 && g.From(d)[0].target == t
  {
    DerivedJoinsIdentities(g, nodes);
    assert SameIdentity(g, d, t);
    var e :| e in g.From(d) && e.target == t;
    forall x | x in g.From(d) ensures x == e {
      assert SameIdentity(g, d, x.target) && x.target != d;
      SameEdge(g, nodes, d, x, e);
    }
    EdgesInOrder(g, nodes, d);
    ListsOnce(d, g.From(d), e);
  }

  lemma EdgesInOrder(g: PathGraph, nodes: seq<Dataset>, d: nat)
    requires DerivedFrom(g, nodes)
    ensures InOrderAt(d, g.From(d))
  {
    assert InOrderAt(d, ListAt(g.edges, d));
  }

  // Two directed edges between the same definitions are the same.
  lemma SameEdge(g: PathGraph, nodes: seq<Dataset>, d: nat, e: OutEdge, f: OutEdge)
    requires DerivedFrom(g, nodes) && e in g.From(d) && f in g.From(d) && e.target == f.target
    ensures e == f
  {
    var s, t := EdgeJoins(g, nodes, d, e);
    var u, v := EdgeJoins(g, nodes, d, f);
    EdgePaired(g, nodes, Derived(Occurrences(nodes)), d, e);
    EdgePaired(g, nodes, Derived(Occurrences(nodes)), d, f);
    assert OccurrenceKey(s) == OccurrenceKey(u) && OccurrenceKey(t) == OccurrenceKey(v);
  }

  // A definition whose identity has two other members has two directed edges, that with the lower edge
  // ID first.
  lemma TwoEdges(g: PathGraph, nodes: seq<Dataset>, d: nat, t: nat, u: nat)
    requires DerivedFrom(g, nodes) && d != t && d != u && t != u
    requires forall x: nat :: SameIdentity(g, d, x) <==> x == d || x == t || x == u
    requires TextLeq(EdgeIdOf(g, (d, t)), EdgeIdOf(g, (d, u))) && EdgeIdOf(g, (d, t)) != EdgeIdOf(g, (d, u))
    ensures |g.From(d)| == 2 && g.From(d)[0].target == t && g.From(d)[1].target == u
  {
    assert SameIdentity(g, d, t) && SameIdentity(g, d, u);
    EveryPairLinked(g, nodes, d, t);
    EveryPairLinked(g, nodes, d, u);
    var e :| e in g.From(d) && e.target == t;
    var f :| f in g.From(d) && f.target == u;
    TwoEdgesListed(g, nodes, d, e, f);
    EdgePaired(g, nodes, Derived(Occurrences(nodes)), d, e);
    EdgePaired(g, nodes, Derived(Occurrences(nodes)), d, f);
    EdgesInOrder(g, nodes, d);
    ListsBoth(d, g.From(d), e, f);
  }

  lemma TwoEdgesListed(g: PathGraph, nodes: seq<Dataset>, d: nat, e: OutEdge, f: OutEdge)
    requires DerivedFrom(g, nodes) && e in g.From(d) && f in g.From(d)
    requires forall x: nat :: SameIdentity(g, d, x) <==> x == d || x == e.target || x == f.target
    ensures forall x :: x in g.From(d) ==> x.target != d && (x == e || x == f)
  {
    DerivedJoinsIdentities(g, nodes);
    forall x | x in g.From(d) ensures x.target != d && (x == e || x == f) {
      assert SameIdentity(g, d, x.target);
      if x.target == e.target { SameEdge(g, nodes, d, x, e); } else { SameEdge(g, nodes, d, x, f); }
    }
  }

  lemma ListsBoth(d: nat, list: seq<OutEdge>, e: OutEdge, f: OutEdge)
    requires InOrderAt(d, list) && e in list && f in list && forall x :: x in list ==>
                 x.target != d && (x == e || x == f)
    requires TextLeq(e.edgeId, f.edgeId) && e.edgeId != f.edgeId
    ensures list == [e, f]
  {
    TextTotal(e.edgeId, f.edgeId);
    TextTotal(e.edgeId, e.edgeId);
    TextTotal(f.edgeId, f.edgeId);
    var both := [e, f];
    assert forall i :: 0 <= i < |list| ==> list[i] in list;
    SortedSame(list, both, OutKey);
  }

  // ---------- edge IDs ----------

  // Between short definitions, lower key first.
  function ShortId(e: Endpoint, f: Endpoint): string
    requires Short(e) && Short(f)
  {
    [e.nodeId[0], ':', e.identityId[0], ':', e.columns[0][0], '_', '_',
     f.nodeId[0], ':', f.identityId[0], ':', f.columns[0][0]]
  }

  lemma ShortEdgeId(e: Endpoint, f: Endpoint)
    requires Short(e) && Short(f) && Precedes(e, f)
    ensures EdgeIdFor(e, f) == ShortId(e, f)
  {
    PrecedesLeq(e, f);
    ShortSide(e);
    ShortSide(f);
  }

  // The edge ID between two definitions is the canonical one.
  lemma PairedId(g: PathGraph, nodes: seq<Dataset>, x: nat, y: nat)
    requires DerivedFrom(g, nodes) && x < |g.keys| && y < |g.keys| && x != y && SameIdentity(g, x, y)
    ensures EdgeIdOf(g, (x, y)) == EdgeIdFor(g.keys[x], g.keys[y])
  {
    var s := NumberedOccurrence(g, nodes, x);
    var t := NumberedOccurrence(g, nodes, y);
    var r := PairRelated(Occurrences(nodes), s, t);
    DerivedIsCanonical(Occurrences(nodes), r);
    EdgeIdSymmetric(g.keys[x], g.keys[y]);
    IdOfPair(g, Derived(Occurrences(nodes)), r, x, y);
  }

  lemma IdOfPair(g: PathGraph, relationships: seq<Relationship>, r: Relationship, x: nat, y: nat)
    requires Paired(g.keys, g.edgeByPair, relationships) && r in relationships && Connects(g.keys, r, x, y)
    ensures EdgeIdOf(g, (x, y)) == r.edgeId
  {}

  lemma SampleEdgeId(g: PathGraph, nodes: seq<Dataset>, x: nat, y: nat)
    requires DerivedFrom(g, nodes) && x < |g.keys| && y < |g.keys| && x != y && SameIdentity(g, x, y)
    requires Short(g.keys[x]) && Short(g.keys[y]) && Precedes(g.keys[x], g.keys[y])
    ensures EdgeIdOf(g, (x, y)) == ShortId(g.keys[x], g.keys[y])
  {
    PairedId(g, nodes, x, y);
    ShortEdgeId(g.keys[x], g.keys[y]);
  }

  // The ID is the same from its other end.
  lemma SampleEdgeIdBack(g: PathGraph, nodes: seq<Dataset>, x: nat, y: nat)
    requires DerivedFrom(g, nodes) && x < |g.keys| && y < |g.keys| && x != y && SameIdentity(g, x, y)
    requires Short(g.keys[x]) && Short(g.keys[y]) && Precedes(g.keys[x], g.keys[y])
    ensures EdgeIdOf(g, (y, x)) == ShortId(g.keys[x], g.keys[y])
  {
    PairedId(g, nodes, y, x);
    EdgeIdSymmetric(g.keys[x], g.keys[y]);
    ShortEdgeId(g.keys[x], g.keys[y]);
  }

  // Texts are ordered by the first position where they differ.
  lemma {:induction false} FirstDifference(a: string, b: string, i: nat)
    requires i < |a| && i < |b| && a[..i] == b[..i] && a[i] < b[i]
    ensures TextLeq(a, b)
  {
    if i == 0 {
    } else {
      assert a[0] == a[..i][0] && b[0] == b[..i][0];
      assert a[1..][..i - 1] == a[..i][1..] && b[1..][..i - 1] == b[..i][1..];
      FirstDifference(a[1..], b[1..], i - 1);
    }
  }

  // Paths of one edge are ranked by edge IDs.
  lemma LowerId(g: PathGraph, x: (nat, nat), y: (nat, nat))
    requires TextLeq(EdgeIdOf(g, x), EdgeIdOf(g, y)) && EdgeIdOf(g, x) != EdgeIdOf(g, y)
    ensures Leq(EdgesKey(g, [x]), EdgesKey(g, [y]))
  {
    var k, l := EdgeKey(g, x), EdgeKey(g, y);
    assert k.items[0] == Text(EdgeIdOf(g, x)) && l.items[0] == Text(EdgeIdOf(g, y));
    assert Leq(k, l);
    var ks, ls := EdgeKeys(g, [x]), EdgeKeys(g, [y]);
    assert ks == [k] && ls == [l];
    assert TupleLeq(ks, ls);
    var a, b := EdgesKey(g, [x]).items, EdgesKey(g, [y]).items;
    assert a == [Num(1), Tuple(ks)] && b == [Num(1), Tuple(ls)];
    assert a[1..] == [Tuple(ks)] && b[1..] == [Tuple(ls)];
    assert TupleLeq(a[1..], b[1..]);
  }
}
