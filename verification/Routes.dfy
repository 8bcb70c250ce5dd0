// State paths and directed-edge sequences are the same thing: a path of the doubled graph is its
// sequence of (from, to) definition pairs.
module Routes {
  import opened Order
  import opened Model
  import opened PathGraphs
  import opened ZeroOneSearch
  import opened Spurs

  // `_edge_pairs`
  function EdgePairs(p: Path): seq<(nat, nat)> {
    if |p| < 2 then []
    else
      var a, b := p[|p| - 2], p[|p| - 1];
      EdgePairs(p[..|p| - 1]) + (if a >= 0 && b >= 0 && a % 2 == 0 && b % 2 == 1 then [(a / 2, b / 2)] else [])
  }

  // The `i`-th directed edge follows a relationship, leaves the source dataset or pivots from where
  // the edge before it has arrived, and arrives at the target only if it is the last.
  ghost predicate LegalAt(q: Query, edges: seq<(nat, nat)>, i: nat)
    requires i < |edges|
  {
    var keys, a, b := q.graph.keys, edges[i].0, edges[i].1;
    && a < |keys| && b < |keys| && Linked(q, a, b)
    && (keys[b].nodeId == q.target <==> i == |edges| - 1)
    && if i == 0 then keys[a].nodeId == q.source
       else
         var before := edges[i - 1].1;
         before < |keys| && keys[a].nodeId == keys[before].nodeId && a != before
  }

  ghost predicate LegalEdges(q: Query, edges: seq<(nat, nat)>) {
    edges != [] && forall i {:trigger LegalAt(q, edges, i)} :: 0 <= i < |edges| ==> LegalAt(q, edges, i)
  }

  function StateAt(edges: seq<(nat, nat)>, k: nat): State
    requires k <= 2 * |edges| + 1
  {
    if k == 0 then SOURCE
    else if k == 2 * |edges| + 1 then TARGET
    else if k % 2 == 1 then Ready(edges[k / 2].0)
    else Arrived(edges[k / 2 - 1].1)
  }

  // The states passed through.
  function Route(edges: seq<(nat, nat)>): Path {
    seq(2 * |edges| + 2, k requires 0 <= k < 2 * |edges| + 2 => StateAt(edges, k))
  }

  // A definition state, ready at odd positions and arrived at even ones.
  ghost predicate KindAt(p: Path, k: nat)
    requires k < |p|
  {
    p[k] >= 0 && p[k] % 2 != k % 2
  }

  // Ready and arrived states take turns between the source and the target.
  ghost predicate Alternating(p: Path, m: nat) {
    && |p| == 2 * m + 2 && p[0] == SOURCE && p[2 * m + 1] == TARGET
    && forall k {:trigger KindAt(p, k)} :: 0 < k < 2 * m + 1 ==> KindAt(p, k)
  }

  function PairAt(p: Path, i: nat): (nat, nat)
    requires 2 * i + 2 < |p| && p[2 * i + 1] >= 0 && p[2 * i + 2] >= 0
  {
    (p[2 * i + 1] / 2, p[2 * i + 2] / 2)
  }

  lemma RouteStates(edges: seq<(nat, nat)>, i: nat)
    requires i < |edges|
    ensures Route(edges)[2 * i + 1] == Ready(edges[i].0) && Route(edges)[2 * i + 2] == Arrived(edges[i].1)
    ensures KindAt(Route(edges), 2 * i + 1) && KindAt(Route(edges), 2 * i + 2)
    ensures PairAt(Route(edges), i) == edges[i]
  {
    assert (2 * i + 1) / 2 == i && (2 * i + 2) / 2 - 1 == i;
  }

  lemma RouteAlternates(edges: seq<(nat, nat)>)
    ensures Alternating(Route(edges), |edges|)
  {
    var p := Route(edges);
    forall k | 0 < k < 2 * |edges| + 1 ensures KindAt(p, k) {
      RouteStates(edges, (k - 1) / 2);
      assert k == 2 * ((k - 1) / 2) + 1 || k == 2 * ((k - 1) / 2) + 2;
    }
  }

  lemma EdgePairsSnoc(p: Path, b: State)
    requires p != []
    ensures EdgePairs(p + [b]) == EdgePairs(p) +
              (if p[|p| - 1] >= 0 && b >= 0 && p[|p| - 1] % 2 == 0 && b % 2 == 1 then [(p[|p| - 1] / 2, b / 2)] else [])
    ensures EdgeCount(p + [b]) == EdgeCount(p) + MoveCost(b)
  {
    assert (p + [b])[..|p|] == p;
  }

  lemma TwoMore(p: Path, n: nat)
    requires n + 2 <= |p|
    ensures p[..n + 2] == p[..n] + [p[n]] + [p[n + 1]]
  {}

  // Two more states, ready and arrived, are one more edge.
  lemma NextPair(p: Path, m: nat, j: nat)
    requires Alternating(p, m) && j < m
    ensures KindAt(p, 2 * j + 1) && KindAt(p, 2 * j + 2)
    ensures EdgePairs(p[..2 * j + 3]) == EdgePairs(p[..2 * j + 1]) + [PairAt(p, j)]
    ensures EdgeCount(p[..2 * j + 3]) == EdgeCount(p[..2 * j + 1]) + 1
  {
    var n := 2 * j + 1;
    assert KindAt(p, n) && KindAt(p, n + 1);
    TwoMore(p, n);
    PairSnoc(p[..n], p[n], p[n + 1]);
  }

  lemma ReadySnoc(p: Path, a: State)
    requires p != [] && a % 2 == 0
    ensures EdgePairs(p + [a]) == EdgePairs(p) && EdgeCount(p + [a]) == EdgeCount(p)
  {
    EdgePairsSnoc(p, a);
  }

  lemma ArrivedSnoc(p: Path, a: State, b: State)
    requires p != [] && p[|p| - 1] == a && a >= 0 && a % 2 == 0 && b >= 0 && b % 2 == 1
    ensures EdgePairs(p + [b]) == EdgePairs(p) + [(a / 2, b / 2)] && EdgeCount(p + [b]) == EdgeCount(p) + 1
  {
    EdgePairsSnoc(p, b);
  }

  lemma PairSnoc(r: Path, a: State, b: State)
    requires r != [] && a >= 0 && a % 2 == 0 && b >= 0 && b % 2 == 1
    ensures EdgePairs(r + [a] + [b]) == EdgePairs(r) + [(a / 2, b / 2)]
    ensures EdgeCount(r + [a] + [b]) == EdgeCount(r) + 1
  {
    ReadySnoc(r, a);
    ArrivedSnoc(r + [a], a, b);
  }

  ghost predicate PairFits(p: Path, pairs: seq<(nat, nat)>, i: nat)
    requires i < |pairs|
  {
    2 * i + 2 < |p| && KindAt(p, 2 * i + 1) && KindAt(p, 2 * i + 2) && pairs[i] == PairAt(p, i)
  }

  ghost predicate PairsFit(p: Path, pairs: seq<(nat, nat)>, j: nat) {
    |pairs| == j && forall i {:trigger PairFits(p, pairs, i)} :: 0 <= i < j ==> PairFits(p, pairs, i)
  }

  lemma PairsFitNext(p: Path, pairs: seq<(nat, nat)>, j: nat)
    requires PairsFit(p, pairs, j) && 2 * j + 2 < |p| && KindAt(p, 2 * j + 1) && KindAt(p, 2 * j + 2)
    ensures PairsFit(p, pairs + [PairAt(p, j)], j + 1)
  {
    var more := pairs + [PairAt(p, j)];
    forall i | 0 <= i < j + 1 ensures PairFits(p, more, i) {
      if i < j { assert PairFits(p, pairs, i); }
    }
  }

  // The first `2 * j + 1` states hold the first `j` edges.
  lemma {:induction false} PairsOfPrefix(p: Path, m: nat, j: nat)
    requires Alternating(p, m) && j <= m
    ensures PairsFit(p, EdgePairs(p[..2 * j + 1]), j) && EdgeCount(p[..2 * j + 1]) == j
    decreases j
  {
    if j == 0 {
      assert p[..1] == [] + [SOURCE];
      assert EdgeCount(p[..1][..0]) == 0;
    } else {
      PairsOfPrefix(p, m, j - 1);
      NextPair(p, m, j - 1);
      PairsFitNext(p, EdgePairs(p[..2 * j - 1]), j - 1);
    }
  }

  lemma PairsOfAlternating(p: Path, m: nat)
    requires Alternating(p, m)
    ensures |EdgePairs(p)| == m && EdgeCount(p) == m
    ensures forall i :: 0 <= i < m ==> KindAt(p, 2 * i + 1) && KindAt(p, 2 * i + 2)
    ensures forall i :: 0 <= i < m ==> EdgePairs(p)[i] == PairAt(p, i)
  {
    PairsOfPrefix(p, m, m);
    assert p == p[..2 * m + 1] + [TARGET];
    EdgePairsSnoc(p[..2 * m + 1], TARGET);
    forall i | 0 <= i < m ensures KindAt(p, 2 * i + 1) && KindAt(p, 2 * i + 2) && EdgePairs(p)[i] == PairAt(p, i) {
      assert PairFits(p, EdgePairs(p[..2 * m + 1]), i);
    }
  }

  // Reading back a route gives its edges.
  lemma RoutePairs(edges: seq<(nat, nat)>)
    ensures EdgePairs(Route(edges)) == edges && EdgeCount(Route(edges)) == |edges|
  {
    var p := Route(edges);
    RouteAlternates(edges);
    PairsOfAlternating(p, |edges|);
    forall i | 0 <= i < |edges| ensures EdgePairs(p)[i] == edges[i] {
      RouteStates(edges, i);
    }
  }

  lemma AlternatingIsRoute(p: Path, m: nat)
    requires Alternating(p, m)
    ensures Route(EdgePairs(p)) == p
  {
    PairsOfAlternating(p, m);
    var edges := EdgePairs(p);
    forall k | 0 <= k < |p| ensures StateAt(edges, k) == p[k] {
      if 0 < k < 2 * m + 1 { StateOfPair(p, m, edges, k); }
    }
  }

  // The state at either end of an edge is that of its pair.
  lemma StateOfPair(p: Path, m: nat, edges: seq<(nat, nat)>, k: nat)
    requires Alternating(p, m) && |edges| == m && 0 < k < 2 * m + 1
    requires forall i :: 0 <= i < m ==> KindAt(p, 2 * i + 1) && KindAt(p, 2 * i + 2)
    requires forall i :: 0 <= i < m ==> edges[i] == PairAt(p, i)
    ensures StateAt(edges, k) == p[k]
  {
    assert KindAt(p, k);
    var i := (k - 1) / 2;
    assert KindAt(p, 2 * i + 1) && KindAt(p, 2 * i + 2) && edges[i] == PairAt(p, i);
    assert k == 2 * i + 1 || k == 2 * i + 2;
  }

  lemma {:induction false} Kinds(q: Query, p: Path, i: nat)
    requires q.graph.Valid() && WalkToTarget(q, NO_CUTS, SOURCE, p) && 0 < i < |p| - 1
    ensures KindAt(p, i)
    decreases i
  {
    if i > 1 { Kinds(q, p, i - 1); }
    assert WalkAt(q, NO_CUTS, p, i - 1);
    WalkStates(q, p, i);
  }

  lemma WalkAlternates(q: Query, p: Path) returns (m: nat)
    requires q.graph.Valid() && WalkToTarget(q, NO_CUTS, SOURCE, p)
    ensures Alternating(p, m) && m > 0
  {
    forall k | 0 < k < |p| - 1 ensures KindAt(p, k) {
      Kinds(q, p, k);
    }
    assert |p| > 1;
    assert WalkAt(q, NO_CUTS, p, |p| - 2);
    WalkStates(q, p, |p| - 2);
    assert |p| > 2 ==> KindAt(p, |p| - 2);
    m := (|p| - 2) / 2;
  }

  // A path is the route of its own edges.
  lemma WalkIsRoute(q: Query, p: Path)
    requires q.graph.Valid() && WalkToTarget(q, NO_CUTS, SOURCE, p)
    ensures Route(EdgePairs(p)) == p && |EdgePairs(p)| == EdgeCount(p)
  {
    var m := WalkAlternates(q, p);
    AlternatingIsRoute(p, m);
    PairsOfAlternating(p, m);
  }

  // The three moves an edge takes part in, against its legality.
  lemma EdgeMoves(q: Query, edges: seq<(nat, nat)>, i: nat)
    requires q.graph.Valid() && i < |edges|
    requires var p := Route(edges);
             && Move(q, p[2 * i], p[2 * i + 1]) && Move(q, p[2 * i + 1], p[2 * i + 2])
                  && Move(q, p[2 * i + 2], p[2 * i + 3])
    ensures LegalAt(q, edges, i)
  {
    var p := Route(edges);
    assert p[2 * i + 1] == Ready(edges[i].0) && p[2 * i + 2] == Arrived(edges[i].1);
    MoveInside(q, p[2 * i + 1], p[2 * i + 2]);
    if i > 0 {
      assert p[2 * i] == Arrived(edges[i - 1].1);
      MoveInside(q, p[2 * i], p[2 * i + 1]);
    }
    if i < |edges| - 1 {
      assert p[2 * i + 3] == Ready(edges[i + 1].0);
    } else {
      assert p[2 * i + 3] == TARGET;
    }
  }

  lemma WalkEdgesLegal(q: Query, p: Path)
    requires q.graph.Valid() && WalkToTarget(q, NO_CUTS, SOURCE, p)
    ensures LegalEdges(q, EdgePairs(p))
  {
    var edges := EdgePairs(p);
    WalkIsRoute(q, p);
    var m := WalkAlternates(q, p);
    forall i | 0 <= i < |edges| ensures LegalAt(q, edges, i) {
      assert WalkAt(q, NO_CUTS, p, 2 * i) && WalkAt(q, NO_CUTS, p, 2 * i + 1) && WalkAt(q, NO_CUTS, p, 2 * i + 2);
      EdgeMoves(q, edges, i);
    }
  }

  // Legal edge sequences are paths of the state graph.
  lemma RouteMove(q: Query, edges: seq<(nat, nat)>, k: nat)
    requires q.graph.Valid() && LegalEdges(q, edges) && k <= 2 * |edges|
    ensures Move(q, StateAt(edges, k), StateAt(edges, k + 1))
  {
    var i := k / 2;
    if i < |edges| { assert LegalAt(q, edges, i); }
    if k > 0 && k % 2 == 0 {
      assert LegalAt(q, edges, i - 1);
    }
  }

  lemma RouteWalks(q: Query, edges: seq<(nat, nat)>)
    requires q.graph.Valid() && LegalEdges(q, edges)
    ensures WalkToTarget(q, NO_CUTS, SOURCE, Route(edges))
  {
    var p := Route(edges);
    forall k | 0 <= k < |p| - 1 ensures WalkAt(q, NO_CUTS, p, k) {
      RouteMove(q, edges, k);
    }
  }

  // ---------- ordering paths ----------

  function EdgeIdOf(g: PathGraph, edge: (nat, nat)): string {
    if edge in g.edgeByPair then g.edgeByPair[edge] else ""
  }

  // One entry of `_edge_ids`.
  function EdgeKey(g: PathGraph, edge: (nat, nat)): Key {
    Tuple([Text(EdgeIdOf(g, edge)), if edge.0 < |g.keys| then EndpointKey(g.keys[edge.0]) else Tuple([])])
  }

  function EdgeKeys(g: PathGraph, edges: seq<(nat, nat)>): seq<Key> {
    seq(|edges|, i requires 0 <= i < |edges| => EdgeKey(g, edges[i]))
  }

  // The order of the answer: number of directed edges, then edge IDs and starting definitions.
  function AnswerKey(g: PathGraph, p: Path): Key {
    Tuple([Num(EdgeCount(p)), Tuple(EdgeKeys(g, EdgePairs(p)))])
  }

  // The order of the heap: the same, then the states.
  function HeapKey(g: PathGraph, p: Path): Key {
    Tuple([Num(EdgeCount(p)), Tuple(EdgeKeys(g, EdgePairs(p))), Tuple(seq(|p|, i requires 0 <= i < |p| => Num(p[i])))])
  }

  // Two edges with the same ID and starting definition are the same.
  lemma EdgeKeyInjective(q: Query, x: (nat, nat), y: (nat, nat))
    requires q.graph.Valid() && x.0 < |q.graph.keys| && y.0 < |q.graph.keys|
    requires Linked(q, x.0, x.1) && Linked(q, y.0, y.1) && EdgeKey(q.graph, x) == EdgeKey(q.graph, y)
    ensures x == y
  {
    var xs, ys := EdgeKey(q.graph, x).items, EdgeKey(q.graph, y).items;
    assert xs[0] == Text(EdgeIdOf(q.graph, x)) && xs[1] == EndpointKey(q.graph.keys[x.0]);
    assert ys[0] == Text(EdgeIdOf(q.graph, y)) && ys[1] == EndpointKey(q.graph.keys[y.0]);
    EndpointKeyInjective(q.graph.keys[x.0], q.graph.keys[y.0]);
    var e :| e in q.graph.From(x.0) && e.target == x.1;
    var f :| f in q.graph.From(y.0) && f.target == y.1;
  }

  // The answer's order tells any two paths apart.
  lemma AnswerKeyInjective(q: Query, p: Path, r: Path)
    requires q.graph.Valid() && WalkToTarget(q, NO_CUTS, SOURCE, p) && WalkToTarget(q, NO_CUTS, SOURCE, r)
    requires AnswerKey(q.graph, p) == AnswerKey(q.graph, r)
    ensures p == r
  {
    var xs, ys := EdgePairs(p), EdgePairs(r);
    assert AnswerKey(q.graph, p).items[1] == Tuple(EdgeKeys(q.graph, xs));
    assert AnswerKey(q.graph, r).items[1] == Tuple(EdgeKeys(q.graph, ys));
    WalkEdgesLegal(q, p);
    WalkEdgesLegal(q, r);
    EdgeKeysInjective(q, xs, ys);
    WalkIsRoute(q, p);
    WalkIsRoute(q, r);
  }

  lemma EdgeKeysInjective(q: Query, xs: seq<(nat, nat)>, ys: seq<(nat, nat)>)
    requires q.graph.Valid() && LegalEdges(q, xs) && LegalEdges(q, ys)
    requires EdgeKeys(q.graph, xs) == EdgeKeys(q.graph, ys)
    ensures xs == ys
  {
    var ks, ls := EdgeKeys(q.graph, xs), EdgeKeys(q.graph, ys);
    assert |xs| == |ks| == |ls| == |ys|;
    forall i | 0 <= i < |xs| ensures xs[i] == ys[i] {
      assert ks[i] == ls[i] && LegalAt(q, xs, i) && LegalAt(q, ys, i);
      EdgeKeyInjective(q, xs[i], ys[i]);
    }
  }
}
