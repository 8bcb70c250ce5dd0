// On a derived graph the very first path needs no filter: the search only forbids repeating a
// state, yet a shortest path between two datasets never reuses a definition.
module FirstPath {
  import opened PathGraphs
  import opened ZeroOneSearch
  import opened Spurs
  import opened Routes
  import opened KShortest
  import opened EdgePaths
  import opened RankedPaths

  ghost predicate SameIdentity(g: PathGraph, x: nat, y: nat) {
    x < |g.keys| && y < |g.keys| && g.keys[x].identityId == g.keys[y].identityId
  }

  // Directed edges join exactly the different definitions of one identity.
  ghost predicate JoinsIdentities(g: PathGraph) {
    && (forall x: nat, e :: e in g.From(x) ==> x != e.target && SameIdentity(g, x, e.target))
    && (forall x: nat, y: nat :: x != y && SameIdentity(g, x, y) ==> exists e :: e in g.From(x) && e.target == y)
  }

  // Nothing is filtered and the two datasets differ.
  ghost predicate Unrestricted(q: Query) {
    q.graph.Valid() && JoinsIdentities(q.graph) && q.allowed.None? && q.source != q.target
  }

  lemma LinkedIsSameIdentity(q: Query, x: nat, y: nat)
    requires q.graph.Valid() && JoinsIdentities(q.graph) && q.allowed.None?
    ensures Linked(q, x, y) <==> x != y && SameIdentity(q.graph, x, y)
  {}

  // ---------- shortening ----------

  // Dropping the edges from `i` up to `j` when the neighbours fit together.
  lemma DropEdges(q: Query, edges: Edges, i: nat, j: nat) returns (shorter: Edges)
    requires LegalEdges(q, edges) && i < j < |edges|
    requires i == 0 ==> edges[j].0 < |q.graph.keys| && q.graph.keys[edges[j].0].nodeId == q.source
    requires i > 0 ==>
               && edges[j].0 < |q.graph.keys| && edges[i - 1].1 < |q.graph.keys| && edges[j].0 != edges[i - 1].1
               && q.graph.keys[edges[j].0].nodeId == q.graph.keys[edges[i - 1].1].nodeId
    ensures LegalEdges(q, shorter) && |shorter| < |edges|
  {
    shorter := edges[..i] + edges[j..];
    forall n | 0 <= n < |shorter| ensures LegalAt(q, shorter, n) {
      if n < i {
        assert LegalAt(q, edges, n);
      } else {
        assert LegalAt(q, edges, n - i + j);
        assert n > i ==> shorter[n - 1] == edges[n - 1 - i + j];
      }
    }
  }

  // Replacing the edges from `i` to `j` by one.
  lemma BridgeEdges(q: Query, edges: Edges, i: nat, j: nat) returns (shorter: Edges)
    requires LegalEdges(q, edges) && i < j < |edges| && Linked(q, edges[i].0, edges[j].1)
    ensures LegalEdges(q, shorter) && |shorter| < |edges|
  {
    shorter := edges[..i] + [(edges[i].0, edges[j].1)] + edges[j + 1..];
    forall n | 0 <= n < |shorter| ensures LegalAt(q, shorter, n) {
      if n < i {
        assert LegalAt(q, edges, n);
      } else if n == i {
        assert LegalAt(q, edges, i) && LegalAt(q, edges, j);
        assert i > 0 ==> shorter[i - 1] == edges[i - 1];
      } else {
        assert LegalAt(q, edges, n - i + j);
        assert shorter[n - 1].1 == edges[n - 1 - i + j].1;
      }
    }
  }

  // Leaving `d` after having arrived at it: go across directly, or look one edge further out.
  lemma {:induction false} LeavesAgain(q: Query, edges: Edges, i: nat, j: nat) returns (shorter: Edges)
    requires Unrestricted(q) && LegalEdges(q, edges) && i < j < |edges| && edges[i].1 == edges[j].0
    ensures LegalEdges(q, shorter) && |shorter| < |edges|
    decreases i, 1
  {
    assert LegalAt(q, edges, i) && LegalAt(q, edges, j);
    var a, b, d := edges[i].0, edges[j].1, edges[i].1;
    LinkedIsSameIdentity(q, a, d);
    LinkedIsSameIdentity(q, d, b);
    LinkedIsSameIdentity(q, a, b);
    if a != b {
      shorter := BridgeEdges(q, edges, i, j);
    } else {
      shorter := ArrivesAgain(q, edges, i, j);
    }
  }

  // Arriving at `d` after having left it: skip the loop, or look one edge further out.
  lemma {:induction false} ArrivesAgain(q: Query, edges: Edges, i: nat, j: nat) returns (shorter: Edges)
    requires Unrestricted(q) && LegalEdges(q, edges) && i < j < |edges| && edges[i].0 == edges[j].1
    ensures LegalEdges(q, shorter) && |shorter| < |edges|
    decreases i, 0
  {
    assert LegalAt(q, edges, i) && LegalAt(q, edges, j);
    assert i > 0 ==> LegalAt(q, edges, i - 1);
    assert j < |edges| - 1;
    assert LegalAt(q, edges, j + 1);
    if i == 0 || edges[i - 1].1 != edges[j + 1].0 {
      shorter := DropEdges(q, edges, i, j + 1);
    } else {
      shorter := LeavesAgain(q, edges, i - 1, j + 1);
    }
  }

  lemma LeftTwice(q: Query, edges: Edges, i: nat, j: nat) returns (shorter: Edges)
    requires LegalEdges(q, edges) && i < j < |edges| && edges[i].0 == edges[j].0
    ensures LegalEdges(q, shorter) && |shorter| < |edges|
  {
    assert LegalAt(q, edges, i);
    shorter := DropEdges(q, edges, i, j);
  }

  lemma ArrivedTwice(q: Query, edges: Edges, i: nat, j: nat) returns (shorter: Edges)
    requires LegalEdges(q, edges) && i < j < |edges| && edges[i].1 == edges[j].1
    ensures LegalEdges(q, shorter) && |shorter| < |edges|
  {
    assert LegalAt(q, edges, i) && LegalAt(q, edges, j);
    assert j < |edges| - 1;
    assert LegalAt(q, edges, j + 1);
    shorter := DropEdges(q, edges, i + 1, j + 1);
  }

  // The two edges a repeated definition belongs to.
  lemma RepeatedEdges(q: Query, edges: Edges) returns (i: nat, j: nat)
    requires Unrestricted(q) && LegalEdges(q, edges) && !SimpleEdges(edges)
    ensures i < j < |edges|
    ensures || edges[i].0 == edges[j].0 || edges[i].1 == edges[j].1
            || edges[i].1 == edges[j].0 || edges[i].0 == edges[j].1
  {
    var m: nat, n: nat :| m < n < 2 * |edges| && Stop(edges, m) == Stop(edges, n);
    i, j := m / 2, n / 2;
    if i == j {
      assert LegalAt(q, edges, i);
      LinkedIsSameIdentity(q, edges[i].0, edges[i].1);
      assert false;
    }
  }

  // Any path that reuses a definition has a shorter one between the same datasets.
  lemma Shortened(q: Query, edges: Edges) returns (shorter: Edges)
    requires Unrestricted(q) && LegalEdges(q, edges) && !SimpleEdges(edges)
    ensures LegalEdges(q, shorter) && |shorter| < |edges|
  {
    var i, j := RepeatedEdges(q, edges);
    if edges[i].0 == edges[j].0 {
      shorter := LeftTwice(q, edges, i, j);
    } else if edges[i].1 == edges[j].1 {
      shorter := ArrivedTwice(q, edges, i, j);
    } else if edges[i].1 == edges[j].0 {
      shorter := LeavesAgain(q, edges, i, j);
    } else {
      shorter := ArrivesAgain(q, edges, i, j);
    }
  }

  // A shortest path never reuses a definition.
  lemma CheapestIsSimple(q: Query, maxEdges: int, edges: Edges)
    requires Unrestricted(q) && FittingEdges(q, maxEdges, edges)
    requires forall r :: FittingEdges(q, maxEdges, r) ==> |edges| <= |r|
    ensures SimpleEdges(edges)
  {
    if !SimpleEdges(edges) {
      var shorter := Shortened(q, edges);
      assert FittingEdges(q, maxEdges, shorter);
    }
  }

  // The first search of every request between different datasets.
  lemma FirstIsSimple(q: Query, maxEdges: int)
    requires Unrestricted(q) && Shortest(q, SOURCE, NO_CUTS, maxEdges).Some?
    ensures Legal(q, maxEdges, Shortest(q, SOURCE, NO_CUTS, maxEdges).value)
  {
    var p := Shortest(q, SOURCE, NO_CUTS, maxEdges).value;
    ShortestAnswers(q, SOURCE, NO_CUTS, maxEdges);
    FirstStarts(q, maxEdges, p);
    FitsIsFitting(q, maxEdges, p);
    forall r | FittingEdges(q, maxEdges, r) ensures |EdgePairs(p)| <= |r| {
      FittingFits(q, maxEdges, r);
    }
    CheapestIsSimple(q, maxEdges, EdgePairs(p));
  }

  // So no path of any answer does.
  lemma AnswersAreSimple(q: Query, maxEdges: int, k: nat, paths: seq<Edges>, more: bool)
    requires Unrestricted(q) && Sensible(q, maxEdges, k, paths, more)
    ensures forall p :: p in paths ==> LegalPath(q, maxEdges, p)
  {
    forall p | p in paths ensures SimpleEdges(p) {
      if !SimpleEdges(p) { CheapestIsSimple(q, maxEdges, p); }
    }
  }
}
