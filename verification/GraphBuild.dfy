// `PathGraph.__init__`: numbering the definitions and laying out their directed edges.
module GraphBuild {
  import opened Order
  import opened Model
  import opened Derivation
  import opened DerivedRelationships
  import opened PathGraphs

  // What snapshot validation guarantees of the relationships.
  ghost predicate ValidEdges(nodes: seq<Dataset>, relationships: seq<Relationship>) {
    && DistinctIds(relationships)
    && forall r :: r in relationships ==>
         && r.edgeId == EdgeIdFor(r.a, r.b)
         && r.a in Ends(Occurrences(nodes)) && r.b in Ends(Occurrences(nodes)) && r.a.identityId == r.b.identityId
  }

  function Ends(os: set<Occurrence>): set<Endpoint> {
    set o | o in os :: EndpointOf(o)
  }

  function NodeKey(node: Dataset): Key { Text(node.nodeId) }

  // ---------- numbering ----------

  ghost predicate Increasing(numbers: seq<nat>) {
    forall i, j :: 0 <= i < j < |numbers| ==> numbers[i] < numbers[j]
  }

  // `numbers` are those of the definitions on `node`, from low to high.
  ghost predicate NumbersOf(keys: seq<Endpoint>, node: string, numbers: seq<nat>) {
    Increasing(numbers) && forall d: nat :: d in numbers <==> d < |keys| && keys[d].nodeId == node
  }

  // Definitions are numbered in key order, and listed by number with their datasets.
  ghost predicate Numbered(keys: seq<Endpoint>, onDataset: map<string, seq<nat>>, ends: set<Endpoint>) {
    && NoDuplicates(keys) && Ascending(keys, EndpointKey) && (forall e :: e in keys <==> e in ends)
    && forall node {:trigger ListAt(onDataset, node)} :: NumbersOf(keys, node, ListAt(onDataset, node))
  }

  lemma ListedNext(keys: seq<Endpoint>, onDataset: map<string, seq<nat>>, e: Endpoint, node: string)
    requires NumbersOf(keys, node, ListAt(onDataset, node))
    ensures var before := ListAt(onDataset, e.nodeId);
            NumbersOf(keys + [e], node, ListAt(onDataset[e.nodeId := before + [|keys|]], node))
  {
    var more, numbers := keys + [e], ListAt(onDataset, node);
    assert forall d: nat :: d < |more| ==> more[d] == if d < |keys| then keys[d] else e;
    assert forall i :: 0 <= i < |numbers| ==> numbers[i] in numbers;
    if node == e.nodeId {
      forall d: nat ensures d in numbers + [|keys|] <==> d < |more| && more[d].nodeId == node {
        assert d in numbers + [|keys|] <==> d in numbers || d == |keys|;
      }
    }
  }

  lemma KeysNext(keys: seq<Endpoint>, e: Endpoint)
    requires NoDuplicates(keys) && Ascending(keys, EndpointKey) && e !in keys
    requires forall x :: x in keys ==> Leq(EndpointKey(x), EndpointKey(e))
    ensures NoDuplicates(keys + [e]) && Ascending(keys + [e], EndpointKey)
  {
    forall i, j | 0 <= i < j < |keys + [e]|
      ensures (keys + [e])[i] != (keys + [e])[j] && Leq(EndpointKey((keys + [e])[i]), EndpointKey((keys + [e])[j]))
    {
      assert keys[i] in keys;
    }
  }

  lemma NumberedNext(keys: seq<Endpoint>, onDataset: map<string, seq<nat>>, ends: set<Endpoint>, e: Endpoint)
    requires Numbered(keys, onDataset, ends) && e !in ends
    requires forall x :: x in ends ==> Leq(EndpointKey(x), EndpointKey(e))
    ensures Numbered(keys + [e], onDataset[e.nodeId := ListAt(onDataset, e.nodeId) + [|keys|]], ends + {e})
  {
    KeysNext(keys, e);
    var onDataset' := onDataset[e.nodeId := ListAt(onDataset, e.nodeId) + [|keys|]];
    forall node {:trigger ListAt(onDataset', node)} ensures NumbersOf(keys + [e], node, ListAt(onDataset', node)) {
      ListedNext(keys, onDataset, e, node);
    }
  }

  method AddDefinition(keys: seq<Endpoint>, onDataset: map<string, seq<nat>>, ghost ends: set<Endpoint>, e: Endpoint)
    returns (keys': seq<Endpoint>, onDataset': map<string, seq<nat>>)
    requires Numbered(keys, onDataset, ends) && e !in ends
    requires forall x :: x in ends ==> Leq(EndpointKey(x), EndpointKey(e))
    ensures Numbered(keys', onDataset', ends + {e})
  {
    NumberedNext(keys, onDataset, ends, e);
    onDataset' := onDataset[e.nodeId := ListAt(onDataset, e.nodeId) + [|keys|]];
    keys' := keys + [e];
  }

  // The occurrence whose turn it is comes after all that are numbered: those of earlier datasets and
  // the first ones of its own.
  ghost predicate NextInOrder(done: set<Occurrence>, o: Occurrence) {
    o !in done && forall p :: p in done ==> Leq(OccurrenceKey(p), OccurrenceKey(o))
  }

  lemma NewEnd(done: set<Occurrence>, o: Occurrence, all: set<Occurrence>)
    requires DistinctEndpoints(all) && done <= all && o in all && NextInOrder(done, o)
    ensures EndpointOf(o) !in Ends(done) && Ends(done + {o}) == Ends(done) + {EndpointOf(o)}
    ensures forall e :: e in Ends(done) ==> Leq(EndpointKey(e), EndpointKey(EndpointOf(o)))
  {
    forall p | p in done ensures EndpointOf(p) != EndpointOf(o) {
      assert OccurrenceKey(p) != OccurrenceKey(o);
    }
  }

  lemma ItemsInOrder(done: set<Occurrence>, sorted: seq<Occurrence>, i: nat)
    requires NoDuplicates(sorted) && Ascending(sorted, OccurrenceKey) && i < |sorted|
    requires forall p, o :: p in done && o in sorted ==> p != o && Leq(OccurrenceKey(p), OccurrenceKey(o))
    ensures NextInOrder(done + FirstItems(sorted, i), sorted[i])
    ensures done + FirstItems(sorted, i) + {sorted[i]} == done + FirstItems(sorted, i + 1)
  {
    FirstItemsNext(sorted, i);
    forall p | p in done + FirstItems(sorted, i) ensures Leq(OccurrenceKey(p), OccurrenceKey(sorted[i])) {
      assert sorted[i] in sorted;
      if p !in done {
        var j :| 0 <= j < |sorted[..i]| && sorted[..i][j] == p;
        assert sorted[j] == p;
      }
    }
  }

  // Number the `i`-th definition of a dataset.
  method NumberNext(keys: seq<Endpoint>, onDataset: map<string, seq<nat>>, ghost done: set<Occurrence>,
                    ghost all: set<Occurrence>, o: Occurrence)
    returns (keys': seq<Endpoint>, onDataset': map<string, seq<nat>>)
    requires DistinctEndpoints(all) && done <= all && o in all && NextInOrder(done, o)
    requires Numbered(keys, onDataset, Ends(done))
    ensures Numbered(keys', onDataset', Ends(done + {o}))
  {
    NewEnd(done, o, all);
    keys', onDataset' := AddDefinition(keys, onDataset, Ends(done), EndpointOf(o));
  }

  method NumberDataset(keys: seq<Endpoint>, onDataset: map<string, seq<nat>>, ghost done: set<Occurrence>,
                       ghost all: set<Occurrence>, node: Dataset)
    returns (keys': seq<Endpoint>, onDataset': map<string, seq<nat>>)
    requires DistinctEndpoints(all) && done <= all && OccurrencesOn(node) <= all
    requires forall p, o :: p in done && o in OccurrencesOn(node) ==> p != o && Leq(OccurrenceKey(p), OccurrenceKey(o))
    requires Numbered(keys, onDataset, Ends(done))
    ensures Numbered(keys', onDataset', Ends(done + OccurrencesOn(node)))
  {
    var sorted := Sorted(OccurrencesOn(node), OccurrenceKey);
    keys', onDataset' := keys, onDataset;
    assert done + FirstItems(sorted, 0) == done;
    for i := 0 to |sorted|
      invariant Numbered(keys', onDataset', Ends(done + FirstItems(sorted, i)))
    {
      ItemsInOrder(done, sorted, i);
      FirstItemsWithin(sorted, i, OccurrencesOn(node));
      keys', onDataset' := NumberNext(keys', onDataset', done + FirstItems(sorted, i), all, sorted[i]);
    }
    assert FirstItems(sorted, |sorted|) == OccurrencesOn(node);
  }

  ghost function FirstItems<T(!new)>(list: seq<T>, n: nat): set<T>
    requires n <= |list|
  {
    set x | x in list[..n]
  }

  lemma FirstItemsNext<T(!new)>(list: seq<T>, n: nat)
    requires NoDuplicates(list) && n < |list|
    ensures list[n] !in FirstItems(list, n) && FirstItems(list, n + 1) == FirstItems(list, n) + {list[n]}
  {
    assert list[..n + 1] == list[..n] + [list[n]];
  }

  lemma FirstItemsWithin<T(!new)>(list: seq<T>, n: nat, all: set<T>)
    requires n < |list| && forall x :: x in list ==> x in all
    ensures FirstItems(list, n) <= all && list[n] in all
  {
    assert list[n] in list;
  }

  lemma NodesDistinguished(nodes: seq<Dataset>)
    requires ValidNodes(nodes)
    ensures Distinguishes(NodeKey, set n | n in nodes)
  {
    forall m, n | m in nodes && n in nodes && NodeKey(m) == NodeKey(n) ensures m == n {
      var i :| 0 <= i < |nodes| && nodes[i] == m;
      var j :| 0 <= j < |nodes| && nodes[j] == n;
    }
  }

  // Datasets in the order of their IDs come with their definitions in key order.
  lemma NodesInOrder(p: Occurrence, o: Occurrence)
    requires p.nodeId != o.nodeId && Leq(Text(p.nodeId), Text(o.nodeId))
    ensures p != o && Leq(OccurrenceKey(p), OccurrenceKey(o))
  {
    var a, b := OccurrenceKey(p), OccurrenceKey(o);
    assert a.items[0] == Text(p.nodeId) && b.items[0] == Text(o.nodeId);
    assert TupleLeq(a.items, b.items);
  }

  lemma OccurrencesNext(sorted: seq<Dataset>, n: nat)
    requires n < |sorted| && Ascending(sorted, NodeKey)
    requires forall i, j :: 0 <= i < j < |sorted| ==> sorted[i].nodeId != sorted[j].nodeId
    ensures Occurrences(sorted[..n + 1]) == Occurrences(sorted[..n]) + OccurrencesOn(sorted[n])
    ensures Occurrences(sorted[..n + 1]) <= Occurrences(sorted)
    ensures forall p, o :: p in Occurrences(sorted[..n]) && o in OccurrencesOn(sorted[n]) ==>
                             p != o && Leq(OccurrenceKey(p), OccurrenceKey(o))
  {
    assert sorted[..n + 1] == sorted[..n] + [sorted[n]];
    forall p, o | p in Occurrences(sorted[..n]) && o in OccurrencesOn(sorted[n])
      ensures p != o && Leq(OccurrenceKey(p), OccurrenceKey(o))
    {
      var m :| m in sorted[..n] && p in OccurrencesOn(m);
      var i :| 0 <= i < n && sorted[..n][i] == m;
      assert Leq(NodeKey(sorted[i]), NodeKey(sorted[n]));
      NodesInOrder(p, o);
    }
  }

  method SortNodes(nodes: seq<Dataset>) returns (sorted: seq<Dataset>)
    requires ValidNodes(nodes)
    ensures Occurrences(sorted) == Occurrences(nodes)
    ensures forall i, j :: 0 <= i < j < |sorted| ==> sorted[i].nodeId != sorted[j].nodeId
    ensures Ascending(sorted, NodeKey)
  {
    NodesDistinguished(nodes);
    sorted := Sorted((set n | n in nodes), NodeKey);
    forall i, j | 0 <= i < j < |sorted| ensures sorted[i].nodeId != sorted[j].nodeId {
      assert sorted[i] in sorted && sorted[j] in sorted && sorted[i] != sorted[j];
      assert NodeKey(sorted[i]) != NodeKey(sorted[j]);
    }
  }

  method NumberDefinitions(nodes: seq<Dataset>) returns (keys: seq<Endpoint>, onDataset: map<string, seq<nat>>)
    requires ValidNodes(nodes)
    ensures Numbered(keys, onDataset, Ends(Occurrences(nodes)))
  {
    var sorted := SortNodes(nodes);
    ValidNodesDistinct(nodes);
    keys, onDataset := [], map[];
    assert Occurrences(sorted[..0]) == {} && Numbered([], map[], {}) by {
      assert forall node: string :: ListAt<string, nat>(map[], node) == [];
    }
    for n := 0 to |sorted|
      invariant Numbered(keys, onDataset, Ends(Occurrences(sorted[..n])))
    {
      OccurrencesNext(sorted, n);
      keys, onDataset := NumberDataset(keys, onDataset, Occurrences(sorted[..n]), Occurrences(nodes), sorted[n]);
    }
    assert sorted[..|sorted|] == sorted;
  }

  // ---------- directed edges ----------

  ghost predicate IsNumber(keys: seq<Endpoint>, e: Endpoint, d: nat) {
    d < |keys| && keys[d] == e
  }

  // `e` leaves the definition numbered `d` by `r`, from one of its ends to the other.
  ghost predicate Leaves(keys: seq<Endpoint>, r: Relationship, d: nat, e: OutEdge) {
    && e.edgeId == r.edgeId
    && ((IsNumber(keys, r.a, d) && IsNumber(keys, r.b, e.target) && e.multiplicity == r.aToB.multiplicity)
        || (IsNumber(keys, r.b, d) && IsNumber(keys, r.a, e.target) && e.multiplicity == r.bToA.multiplicity))
  }

  function OutKey(e: OutEdge): Key { Text(e.edgeId) }

  // By edge ID; twice only what leads back to `d` itself.
  ghost predicate InOrderAt(d: nat, list: seq<OutEdge>) {
    && Ascending(list, OutKey)
    && forall i, j :: 0 <= i < j < |list| && list[i] == list[j] ==> list[i].target == d
  }

  // Each definition lists its directed edges in the order of their edge IDs.
  ghost predicate InIdOrder(edges: map<nat, seq<OutEdge>>) {
    forall d: nat {:trigger ListAt(edges, d)} :: InOrderAt(d, ListAt(edges, d))
  }

  ghost predicate LaidOut(keys: seq<Endpoint>, edges: map<nat, seq<OutEdge>>, relationships: seq<Relationship>) {
    && (forall d: nat, e :: e in ListAt(edges, d) <==> exists r :: r in relationships && Leaves(keys, r, d, e))
    && InIdOrder(edges)
  }

  ghost predicate Connects(keys: seq<Endpoint>, r: Relationship, x: nat, y: nat) {
    (IsNumber(keys, r.a, x) && IsNumber(keys, r.b, y)) || (IsNumber(keys, r.b, x) && IsNumber(keys, r.a, y))
  }

  ghost predicate Paired(keys: seq<Endpoint>, edgeByPair: map<(nat, nat), string>, relationships: seq<Relationship>) {
    && (forall r, x: nat, y: nat :: r in relationships && Connects(keys, r, x, y) ==>
          (x, y) in edgeByPair && edgeByPair[(x, y)] == r.edgeId)
    && (forall x: nat, y: nat :: (x, y) in edgeByPair ==>
          exists r :: r in relationships && r.edgeId == edgeByPair[(x, y)] && Connects(keys, r, x, y))
  }

  // The built graph lists each relationship with both of its ends.
  ghost predicate Built(g: PathGraph, nodes: seq<Dataset>, relationships: seq<Relationship>) {
    && Numbered(g.keys, g.onDataset, Ends(Occurrences(nodes)))
    && LaidOut(g.keys, g.edges, relationships) && Paired(g.keys, g.edgeByPair, relationships)
  }

  function Append(edges: map<nat, seq<OutEdge>>, d: nat, e: OutEdge): map<nat, seq<OutEdge>> {
    edges[d := ListAt(edges, d) + [e]]
  }

  // Every edge listed so far has an ID no greater than `last`.
  ghost predicate UpTo(edges: map<nat, seq<OutEdge>>, last: string) {
    forall d: nat, x :: x in ListAt(edges, d) ==> TextLeq(x.edgeId, last)
  }

  lemma AppendOrdered(edges: map<nat, seq<OutEdge>>, d: nat, e: OutEdge)
    requires InIdOrder(edges) && UpTo(edges, e.edgeId) && (e in ListAt(edges, d) ==> e.target == d)
    ensures InIdOrder(Append(edges, d, e)) && UpTo(Append(edges, d, e), e.edgeId)
    ensures forall x: nat, y :: y in ListAt(Append(edges, d, e), x) <==> y in ListAt(edges, x) || (x == d && y == e)
  {
    TextTotal(e.edgeId, e.edgeId);
    var edges' := Append(edges, d, e);
    forall x: nat ensures InOrderAt(x, ListAt(edges', x)) {
      var before, after := ListAt(edges, x), ListAt(edges', x);
      forall i, j | 0 <= i < j < |after|
        ensures Leq(OutKey(after[i]), OutKey(after[j])) && (after[i] == after[j] ==> after[i].target == x)
      {
        assert before[i] in before;
      }
    }
    forall x: nat, y ensures y in ListAt(edges', x) <==> y in ListAt(edges, x) || (x == d && y == e) {
      assert x == d ==> ListAt(edges', x) == ListAt(edges, x) + [e];
    }
  }

  lemma LaidOutNext(keys: seq<Endpoint>, edges: map<nat, seq<OutEdge>>, relationships: seq<Relationship>,
                    r: Relationship, a: nat, b: nat)
    requires NoDuplicates(keys) && LaidOut(keys, edges, relationships)
    requires IsNumber(keys, r.a, a) && IsNumber(keys, r.b, b)
    requires forall s :: s in relationships ==> TextLeq(s.edgeId, r.edgeId) && s.edgeId != r.edgeId
    ensures var e, f := OutEdge(b, r.aToB.multiplicity, r.edgeId), OutEdge(a, r.bToA.multiplicity, r.edgeId);
            LaidOut(keys, Append(Append(edges, a, e), b, f), relationships + [r])
  {
    var e, f := OutEdge(b, r.aToB.multiplicity, r.edgeId), OutEdge(a, r.bToA.multiplicity, r.edgeId);
    NewIds(keys, edges, relationships, r);
    AppendBoth(edges, a, e, b, f);
    LeavesByEither(keys, r, a, b);
    EdgesAdded(keys, edges, Append(Append(edges, a, e), b, f), relationships, r);
  }

  // The two directed edges of a new relationship, one between `a` and `b` each way.
  lemma AppendBoth(edges: map<nat, seq<OutEdge>>, a: nat, e: OutEdge, b: nat, f: OutEdge)
    requires InIdOrder(edges) && UpTo(edges, e.edgeId) && e.edgeId == f.edgeId && e.target == b && f.target == a
    requires forall d: nat, x :: x in ListAt(edges, d) ==> x.edgeId != e.edgeId
    ensures InIdOrder(Append(Append(edges, a, e), b, f))
    ensures forall d: nat, x ::
              x in ListAt(Append(Append(edges, a, e), b, f), d) <==>
              x in ListAt(edges, d) || (d == a && x == e) || (d == b && x == f)
  {
    AppendOrdered(edges, a, e);
    AppendOrdered(Append(edges, a, e), b, f);
  }

  // The edges listed so far belong to relationships with lower IDs.
  lemma NewIds(keys: seq<Endpoint>, edges: map<nat, seq<OutEdge>>, relationships: seq<Relationship>, r: Relationship)
    requires LaidOut(keys, edges, relationships)
    requires forall s :: s in relationships ==> TextLeq(s.edgeId, r.edgeId) && s.edgeId != r.edgeId
    ensures UpTo(edges, r.edgeId) && forall d: nat, x :: x in ListAt(edges, d) ==> x.edgeId != r.edgeId
  {
    forall d: nat, x | x in ListAt(edges, d) ensures TextLeq(x.edgeId, r.edgeId) && x.edgeId != r.edgeId {
      var s :| s in relationships && Leaves(keys, s, d, x);
    }
  }

  // A relationship leaves its two ends by one directed edge each.
  lemma LeavesByEither(keys: seq<Endpoint>, r: Relationship, a: nat, b: nat)
    requires NoDuplicates(keys) && IsNumber(keys, r.a, a) && IsNumber(keys, r.b, b)
    ensures forall d: nat, x ::
              Leaves(keys, r, d, x) <==>
              || (d == a && x == OutEdge(b, r.aToB.multiplicity, r.edgeId))
              || (d == b && x == OutEdge(a, r.bToA.multiplicity, r.edgeId))
  {
    forall d: nat, x | Leaves(keys, r, d, x) ensures (d == a && x.target == b) || (d == b && x.target == a) {}
  }

  lemma EdgesAdded(keys: seq<Endpoint>, edges: map<nat, seq<OutEdge>>, edges': map<nat, seq<OutEdge>>,
                   relationships: seq<Relationship>, r: Relationship)
    requires LaidOut(keys, edges, relationships) && InIdOrder(edges')
    requires forall d: nat, x :: x in ListAt(edges', d) <==> x in ListAt(edges, d) || Leaves(keys, r, d, x)
    ensures LaidOut(keys, edges', relationships + [r])
  {
    assert forall s :: s in relationships + [r] <==> s in relationships || s == r;
  }

  lemma PairedNext(keys: seq<Endpoint>, edgeByPair: map<(nat, nat), string>, relationships: seq<Relationship>,
                   r: Relationship, a: nat, b: nat)
    requires NoDuplicates(keys) && Paired(keys, edgeByPair, relationships) && IsNumber(keys, r.a, a)
    requires IsNumber(keys, r.b, b)
    requires forall s :: s in relationships ==> {s.a, s.b} != {r.a, r.b}
    ensures Paired(keys, edgeByPair[(a, b) := r.edgeId][(b, a) := r.edgeId], relationships + [r])
  {
    var edgeByPair' := edgeByPair[(a, b) := r.edgeId][(b, a) := r.edgeId];
    assert forall s :: s in relationships + [r] <==> s in relationships || s == r;
    forall s, x: nat, y: nat | s in relationships + [r] && Connects(keys, s, x, y)
      ensures (x, y) in edgeByPair' && edgeByPair'[(x, y)] == s.edgeId
    {
      if s in relationships {
        assert {s.a, s.b} != {r.a, r.b};
        assert (x, y) != (a, b) && (x, y) != (b, a);
      } else {
        assert (x, y) == (a, b) || (x, y) == (b, a);
      }
    }
    forall x: nat, y: nat | (x, y) in edgeByPair'
      ensures exists s :: s in relationships + [r] && s.edgeId == edgeByPair'[(x, y)] && Connects(keys, s, x, y)
    {
      if (x, y) == (a, b) || (x, y) == (b, a) {
        assert r in relationships + [r] && Connects(keys, r, x, y);
      } else {
        var s :| s in relationships && s.edgeId == edgeByPair[(x, y)] && Connects(keys, s, x, y);
        assert s in relationships + [r];
      }
    }
  }

  // Canonical IDs being distinct, no two relationships have the same ends.
  lemma DifferentEnds(nodes: seq<Dataset>, relationships: seq<Relationship>, r: Relationship, s: Relationship)
    requires ValidEdges(nodes, relationships) && r in relationships && s in relationships && {r.a, r.b} == {s.a, s.b}
    ensures r == s
  {
    assert r.a in {s.a, s.b} && r.b in {s.a, s.b} && s.a in {r.a, r.b} && s.b in {r.a, r.b};
    EdgeIdSymmetric(s.a, s.b);
    assert r.edgeId == s.edgeId;
    var i :| 0 <= i < |relationships| && relationships[i] == r;
    var j :| 0 <= j < |relationships| && relationships[j] == s;
  }

  lemma SortedEdgesValid(nodes: seq<Dataset>, relationships: seq<Relationship>, sorted: seq<Relationship>)
    requires ValidEdges(nodes, relationships) && sorted == StablySorted(relationships, EdgeIdKey)
    ensures ValidEdges(nodes, sorted) && NoDuplicates(sorted)
  {
    SamePermutation(relationships, sorted);
    assert NoDuplicates(relationships);
    forall i, j | 0 <= i < j < |sorted| ensures sorted[i].edgeId != sorted[j].edgeId {
      assert sorted[i] in relationships && sorted[j] in relationships;
      var k :| 0 <= k < |relationships| && relationships[k] == sorted[i];
      var l :| 0 <= l < |relationships| && relationships[l] == sorted[j];
      assert k != l;
    }
  }

  function Index(keys: seq<Endpoint>): map<Endpoint, nat>
    requires NoDuplicates(keys)
  {
    map i | 0 <= i < |keys| :: keys[i] := i
  }

  lemma LaterIds(sorted: seq<Relationship>, n: nat)
    requires Ascending(sorted, EdgeIdKey) && DistinctIds(sorted) && n < |sorted|
    ensures forall s :: s in sorted[..n] ==> TextLeq(s.edgeId, sorted[n].edgeId) && s.edgeId != sorted[n].edgeId
  {
    forall s | s in sorted[..n] ensures TextLeq(s.edgeId, sorted[n].edgeId) && s.edgeId != sorted[n].edgeId {
      var i :| 0 <= i < n && sorted[..n][i] == s;
      assert Leq(EdgeIdKey(sorted[i]), EdgeIdKey(sorted[n]));
    }
  }

  lemma OtherEnds(nodes: seq<Dataset>, sorted: seq<Relationship>, n: nat)
    requires ValidEdges(nodes, sorted) && NoDuplicates(sorted) && n < |sorted|
    ensures forall s :: s in sorted[..n] ==> {s.a, s.b} != {sorted[n].a, sorted[n].b}
  {
    forall s | s in sorted[..n] ensures {s.a, s.b} != {sorted[n].a, sorted[n].b} {
      assert s in sorted && sorted[n] in sorted;
      if {s.a, s.b} == {sorted[n].a, sorted[n].b} { DifferentEnds(nodes, sorted, s, sorted[n]); }
    }
  }

  // Lay out the `n`-th relationship with both of its ends.
  method LayOutNext(keys: seq<Endpoint>, index: map<Endpoint, nat>, sorted: seq<Relationship>, n: nat,
                    edges: map<nat, seq<OutEdge>>, edgeByPair: map<(nat, nat), string>, ghost nodes: seq<Dataset>)
    returns (edges': map<nat, seq<OutEdge>>, edgeByPair': map<(nat, nat), string>)
    requires NoDuplicates(keys) && index == Index(keys) && (forall e :: e in keys <==> e in Ends(Occurrences(nodes)))
    requires ValidEdges(nodes, sorted) && NoDuplicates(sorted) && Ascending(sorted, EdgeIdKey) && n < |sorted|
    requires LaidOut(keys, edges, sorted[..n]) && Paired(keys, edgeByPair, sorted[..n])
    ensures LaidOut(keys, edges', sorted[..n + 1]) && Paired(keys, edgeByPair', sorted[..n + 1])
  {
    var r := sorted[n];
    assert r in sorted && r.a in keys && r.b in keys;
    var a, b := index[r.a], index[r.b];
    LaterIds(sorted, n);
    OtherEnds(nodes, sorted, n);
    LaidOutNext(keys, edges, sorted[..n], r, a, b);
    PairedNext(keys, edgeByPair, sorted[..n], r, a, b);
    assert sorted[..n + 1] == sorted[..n] + [r];
    edges' := Append(edges, a, OutEdge(b, r.aToB.multiplicity, r.edgeId));
    edges' := Append(edges', b, OutEdge(a, r.bToA.multiplicity, r.edgeId));
    edgeByPair' := edgeByPair[(a, b) := r.edgeId][(b, a) := r.edgeId];
  }

  // Lay out every relationship, by edge ID.
  method LayOut(keys: seq<Endpoint>, sorted: seq<Relationship>, ghost nodes: seq<Dataset>)
    returns (edges: map<nat, seq<OutEdge>>, edgeByPair: map<(nat, nat), string>)
    requires NoDuplicates(keys) && (forall e :: e in keys <==> e in Ends(Occurrences(nodes)))
    requires ValidEdges(nodes, sorted) && NoDuplicates(sorted) && Ascending(sorted, EdgeIdKey)
    ensures LaidOut(keys, edges, sorted) && Paired(keys, edgeByPair, sorted)
  {
    var index := Index(keys);
    edges, edgeByPair := map[], map[];
    for n := 0 to |sorted|
      invariant LaidOut(keys, edges, sorted[..n])
      invariant Paired(keys, edgeByPair, sorted[..n])
    {
      edges, edgeByPair := LayOutNext(keys, index, sorted, n, edges, edgeByPair, nodes);
    }
    assert sorted[..|sorted|] == sorted;
  }

  method BuildGraph(nodes: seq<Dataset>, relationships: seq<Relationship>) returns (g: PathGraph)
    requires ValidNodes(nodes) && ValidEdges(nodes, relationships)
    ensures Built(g, nodes, relationships)
  {
    var keys, onDataset := NumberDefinitions(nodes);
    var sorted := StablySorted(relationships, EdgeIdKey);
    SortedEdgesValid(nodes, relationships, sorted);
    var edges, edgeByPair := LayOut(keys, sorted, nodes);
    g := PathGraph(keys, onDataset, edges, edgeByPair);
    SamePermutation(relationships, sorted);
  }
}
