// Ties in the ranking: when the answer is the least paths by edge count, edge IDs and starting
// definitions, and not only some of the shortest.
module TieBreak {
  import opened Order
  import opened Sets
  import opened PathGraphs
  import opened Routes
  import opened EdgePaths
  import opened RankedPaths

  // The first `k` legal paths by rank, in rank order.
  ghost predicate IsBest(q: Query, maxEdges: int, k: nat, paths: seq<Edges>) {
    && |paths| <= k && NoDuplicates(paths) && Ascending(paths, edges => EdgesKey(q.graph, edges))
    && (forall p :: p in paths ==> LegalPath(q, maxEdges, p))
    && (forall r :: LegalPath(q, maxEdges, r) && r !in paths ==>
          |paths| == k && forall p :: p in paths ==> Leq(EdgesKey(q.graph, p), EdgesKey(q.graph, r)))
  }

  // `best` are `k` legal paths, or all there are, and every other is longer than each of them.
  ghost predicate CutsClean(q: Query, maxEdges: int, k: nat, best: seq<Edges>) {
    && |best| <= k && NoDuplicates(best) && (forall p :: p in best ==> LegalPath(q, maxEdges, p))
    && (forall r :: LegalPath(q, maxEdges, r) && r !in best ==> |best| == k && forall p :: p in best ==> |p| < |r|)
  }

  // The request has no two legal paths with equally many directed edges of which one is within the cap
  // of `k` and one is not.
  ghost predicate NoTieAt(q: Query, maxEdges: int, k: nat) {
    exists best :: CutsClean(q, maxEdges, k, best)
  }

  // An answer that ranks the `k` shortest legal paths.
  ghost predicate RankedAnswer(q: Query, maxEdges: int, k: nat, paths: seq<Edges>, more: bool) {
    && |paths| <= k && NoDuplicates(paths) && Ascending(paths, edges => EdgesKey(q.graph, edges))
    && Ranked(q, maxEdges, k, paths, more)
  }

  lemma FewerOutside<T>(r: seq<T>, s: seq<T>) returns (x: T)
    requires NoDuplicates(r) && NoDuplicates(s) && |r| >= |s|
    requires exists y :: y in s && y !in r
    ensures x in r && x !in s
  {
    var y :| y in s && y !in r;
    var rs, ss := set x | x in r, set x | x in s;
    DistinctSize(r);
    DistinctSize(s);
    if rs <= ss {
      SubsetSize(rs, ss - {y});
    }
    x :| x in rs && x !in ss;
  }

  // Without a tie, the legal paths within the cap are the answer.
  lemma CleanCutReturned(q: Query, maxEdges: int, k: nat, paths: seq<Edges>, more: bool, best: seq<Edges>)
    requires RankedAnswer(q, maxEdges, k, paths, more) && CutsClean(q, maxEdges, k, best)
    ensures forall p :: p in paths <==> p in best
    ensures |paths| == |best|
  {
    forall r | r in best ensures r in paths {
      if r !in paths {
        var p := FewerOutside(paths, best);
      }
    }
    forall p | p in paths ensures p in best {
      if p !in best {
        var r := FewerOutside(best, paths);
      }
    }
    assert (set p | p in paths) == (set p | p in best);
    DistinctSize(paths);
    DistinctSize(best);
  }

  lemma ShorterIsLess(g: PathGraph, p: Edges, r: Edges)
    requires |p| < |r|
    ensures Leq(EdgesKey(g, p), EdgesKey(g, r))
  {
    var a, b := EdgesKey(g, p).items, EdgesKey(g, r).items;
    assert a[0] == Num(|p|) && b[0] == Num(|r|);
    assert TupleLeq(a, b);
  }

  lemma BestWithoutTie(q: Query, maxEdges: int, k: nat, paths: seq<Edges>, more: bool)
    requires RankedAnswer(q, maxEdges, k, paths, more) && NoTieAt(q, maxEdges, k)
    ensures IsBest(q, maxEdges, k, paths)
  {
    var best :| CutsClean(q, maxEdges, k, best);
    CleanCutReturned(q, maxEdges, k, paths, more, best);
    forall p, r | p in paths && LegalPath(q, maxEdges, r) && r !in paths
      ensures Leq(EdgesKey(q.graph, p), EdgesKey(q.graph, r))
    {
      ShorterIsLess(q.graph, p, r);
    }
  }

  // ---------- with a tie ----------

  // Two paths on different sides of the cap with equally many directed edges.
  lemma TieAcross(q: Query, maxEdges: int, k: nat, paths: seq<Edges>, more: bool) returns (p: Edges, r: Edges)
    requires RankedAnswer(q, maxEdges, k, paths, more) && !NoTieAt(q, maxEdges, k)
    ensures p in paths && LegalPath(q, maxEdges, r) && r !in paths && |p| == |r| && more && |paths| == k
  {
    assert !CutsClean(q, maxEdges, k, paths);
    p, r :| p in paths && LegalPath(q, maxEdges, r) && r !in paths && |p| >= |r|;
  }

  lemma KeysDiffer(q: Query, maxEdges: int, p: Edges, r: Edges)
    requires q.graph.Valid() && LegalPath(q, maxEdges, p) && LegalPath(q, maxEdges, r)
    requires EdgesKey(q.graph, p) == EdgesKey(q.graph, r)
    ensures p == r
  {
    assert EdgesKey(q.graph, p).items[1] == Tuple(EdgeKeys(q.graph, p));
    assert EdgesKey(q.graph, r).items[1] == Tuple(EdgeKeys(q.graph, r));
    EdgeKeysInjective(q, p, r);
  }

  ghost predicate Swaps(paths: seq<Edges>, p: Edges, r: Edges, other: seq<Edges>) {
    |other| == |paths| && forall x :: x in other <==> x == r || (x in paths && x != p)
  }

  lemma SwappedSize(paths: seq<Edges>, p: Edges, r: Edges)
    requires NoDuplicates(paths) && p in paths && r !in paths
    ensures |(set x | x in paths) - {p} + {r}| == |paths|
  {
    DistinctSize(paths);
  }

  lemma SwappedRanked(q: Query, maxEdges: int, k: nat, paths: seq<Edges>, p: Edges, r: Edges, other: seq<Edges>)
    requires Ranked(q, maxEdges, k, paths, true) && p in paths && r !in paths && |p| == |r|
    requires LegalPath(q, maxEdges, r) && Swaps(paths, p, r, other)
    ensures Ranked(q, maxEdges, k, other, true)
  {
    assert LegalPath(q, maxEdges, p) && p !in other;
    forall x, y | x in other && LegalPath(q, maxEdges, y) && y !in other ensures |x| <= |y| {
      assert y == p || y !in paths;
      assert x == r || x in paths;
    }
  }

  lemma SortPaths(q: Query, maxEdges: int, s: set<Edges>) returns (list: seq<Edges>)
    requires q.graph.Valid() && forall p :: p in s ==> LegalPath(q, maxEdges, p)
    ensures |list| == |s| && (forall p :: p in list <==> p in s)
    ensures NoDuplicates(list) && Ascending(list, edges => EdgesKey(q.graph, edges))
  {
    forall x, y | x in s && y in s && EdgesKey(q.graph, x) == EdgesKey(q.graph, y) ensures x == y {
      KeysDiffer(q, maxEdges, x, y);
    }
    list := Sorted(s, edges => EdgesKey(q.graph, edges));
  }

  // The answer with `r` for `p`.
  lemma Swapped(q: Query, maxEdges: int, k: nat, paths: seq<Edges>, p: Edges, r: Edges) returns (other: seq<Edges>)
    requires q.graph.Valid() && RankedAnswer(q, maxEdges, k, paths, true)
    requires p in paths && LegalPath(q, maxEdges, r) && r !in paths && |p| == |r|
    ensures RankedAnswer(q, maxEdges, k, other, true) && r in other && p !in other
  {
    SwappedSize(paths, p, r);
    other := SortPaths(q, maxEdges, (set x | x in paths) - {p} + {r});
    SwappedRanked(q, maxEdges, k, paths, p, r, other);
  }

  // With one, being ranked does not make an answer the best: some ranked answer is not.
  lemma TieLeavesChoice(q: Query, maxEdges: int, k: nat, paths: seq<Edges>, more: bool) returns (other: seq<Edges>)
    requires q.graph.Valid() && RankedAnswer(q, maxEdges, k, paths, more) && !NoTieAt(q, maxEdges, k)
    ensures RankedAnswer(q, maxEdges, k, other, more) && !IsBest(q, maxEdges, k, other)
  {
    var p, r := TieAcross(q, maxEdges, k, paths, more);
    other := Swapped(q, maxEdges, k, paths, p, r);
    if IsBest(q, maxEdges, k, other) {
      other := paths;
      if IsBest(q, maxEdges, k, paths) {
        Total(EdgesKey(q.graph, p), EdgesKey(q.graph, r));
        KeysDiffer(q, maxEdges, p, r);
      }
    }
  }

  // Being ranked makes every answer to a request the best exactly when no tie lies across its cap.
  lemma BestExactly(q: Query, maxEdges: int, k: nat, paths: seq<Edges>, more: bool)
    requires q.graph.Valid() && RankedAnswer(q, maxEdges, k, paths, more)
    ensures NoTieAt(q, maxEdges, k) <==>
              forall other, m :: RankedAnswer(q, maxEdges, k, other, m) ==> IsBest(q, maxEdges, k, other)
  {
    if NoTieAt(q, maxEdges, k) {
      forall other, m | RankedAnswer(q, maxEdges, k, other, m) ensures IsBest(q, maxEdges, k, other) {
        BestWithoutTie(q, maxEdges, k, other, m);
      }
    } else {
      var other := TieLeavesChoice(q, maxEdges, k, paths, more);
    }
  }
}
