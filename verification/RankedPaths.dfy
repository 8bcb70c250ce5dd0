// `PathGraph.k_shortest` as its caller sees it: sequences of directed edges, ranked.
module RankedPaths {
  import opened Order
  import opened PathGraphs
  import opened Spurs
  import opened Routes
  import opened KShortest
  import opened EdgePaths
  import opened Exactness

  // ---------- presenting the found paths ----------

  function EdgesOfPaths(paths: seq<Path>): seq<Edges> {
    seq(|paths|, i requires 0 <= i < |paths| => EdgePairs(paths[i]))
  }

  ghost predicate AllFit(q: Query, maxEdges: int, paths: seq<Path>) {
    forall p :: p in paths ==> Fits(q, maxEdges, p)
  }

  lemma PairsMember(q: Query, maxEdges: int, paths: seq<Path>, edges: Edges)
    requires q.graph.Valid() && AllFit(q, maxEdges, paths) && FittingEdges(q, maxEdges, edges)
    ensures edges in EdgesOfPaths(paths) <==> Route(edges) in paths
  {
    FittingFits(q, maxEdges, edges);
    if edges in EdgesOfPaths(paths) {
      var i :| 0 <= i < |paths| && EdgesOfPaths(paths)[i] == edges;
      assert paths[i] in paths;
      SameEdgesSamePath(q, maxEdges, paths[i], Route(edges));
    }
    if Route(edges) in paths {
      var i :| 0 <= i < |paths| && paths[i] == Route(edges);
      assert EdgesOfPaths(paths)[i] == edges;
    }
  }

  // What the caller gets in every run.
  ghost predicate Sensible(q: Query, maxEdges: int, k: nat, paths: seq<Edges>, more: bool) {
    && |paths| <= k && NoDuplicates(paths) && Ascending(paths, edges => EdgesKey(q.graph, edges))
    && (forall edges :: edges in paths ==> FittingEdges(q, maxEdges, edges))
    && (paths == [] <==> k == 0 || forall edges :: !FittingEdges(q, maxEdges, edges))
    && (more ==> |paths| == k && exists edges :: FittingEdges(q, maxEdges, edges) && edges !in paths)
    && OnlyCheapestReuses(q, maxEdges, paths)
  }

  // A path that reuses a definition can only be the result of the very first search.
  ghost predicate OnlyCheapestReuses(q: Query, maxEdges: int, paths: seq<Edges>) {
    && (forall i, j :: 0 <= i < j < |paths| ==> SimpleEdges(paths[i]) || SimpleEdges(paths[j]))
    && (forall p, r :: p in paths && !SimpleEdges(p) && FittingEdges(q, maxEdges, r) ==> |p| <= |r|)
  }

  // The `k` shortest legal paths, all of them if there are fewer, and whether there are more.
  ghost predicate Ranked(q: Query, maxEdges: int, k: nat, paths: seq<Edges>, more: bool) {
    && (forall p :: p in paths ==> LegalPath(q, maxEdges, p))
    && (more <==> exists r :: LegalPath(q, maxEdges, r) && r !in paths)
    && (more ==> |paths| == k)
    && (forall p, r :: p in paths && LegalPath(q, maxEdges, r) && r !in paths ==> |p| <= |r|)
  }

  function FirstOf(found: seq<Path>, k: nat): seq<Path> { if |found| <= k then found else found[..k] }

  // `shown` lists the first `k` found paths in the order of the answer.
  ghost predicate Shows(q: Query, k: nat, found: seq<Path>, shown: seq<Path>) {
    && |shown| == |FirstOf(found, k)| && NoDuplicates(shown)
    && (forall p :: p in shown <==> p in FirstOf(found, k))
    && Ascending(shown, p => AnswerKey(q.graph, p))
  }

  lemma ShownFit(q: Query, maxEdges: int, k: nat, found: seq<Path>, shown: seq<Path>)
    requires q.graph.Valid() && Sound(q, maxEdges, k, found) && Shows(q, k, found, shown)
    ensures AllFit(q, maxEdges, shown)
  {}

  lemma AscendingPairs(q: Query, maxEdges: int, shown: seq<Path>)
    requires q.graph.Valid() && AllFit(q, maxEdges, shown)
    requires NoDuplicates(shown) && Ascending(shown, p => AnswerKey(q.graph, p))
    ensures NoDuplicates(EdgesOfPaths(shown)) && Ascending(EdgesOfPaths(shown), edges => EdgesKey(q.graph, edges))
  {
    var paths := EdgesOfPaths(shown);
    forall i, j | 0 <= i < j < |paths|
      ensures paths[i] != paths[j] && Leq(EdgesKey(q.graph, paths[i]), EdgesKey(q.graph, paths[j]))
    {
      var p, r := shown[i], shown[j];
      assert p in shown && r in shown;
      FitsIsFitting(q, maxEdges, p);
      FitsIsFitting(q, maxEdges, r);
      if paths[i] == paths[j] { SameEdgesSamePath(q, maxEdges, p, r); }
      assert Leq(AnswerKey(q.graph, p), AnswerKey(q.graph, r));
    }
  }

  lemma ShownPairsFit(q: Query, maxEdges: int, shown: seq<Path>)
    requires q.graph.Valid() && AllFit(q, maxEdges, shown)
    ensures forall edges :: edges in EdgesOfPaths(shown) ==> FittingEdges(q, maxEdges, edges)
  {
    forall edges | edges in EdgesOfPaths(shown) ensures FittingEdges(q, maxEdges, edges) {
      var i :| 0 <= i < |shown| && EdgesOfPaths(shown)[i] == edges;
      assert shown[i] in shown;
      FitsIsFitting(q, maxEdges, shown[i]);
    }
  }

  lemma ReuseOfShown(q: Query, maxEdges: int, k: nat, found: seq<Path>, shown: seq<Path>)
    requires q.graph.Valid() && Sound(q, maxEdges, k, found) && Shows(q, k, found, shown)
    ensures OnlyCheapestReuses(q, maxEdges, EdgesOfPaths(shown))
  {
    ShownFit(q, maxEdges, k, found, shown);
    var paths := EdgesOfPaths(shown);
    forall i | 0 <= i < |shown| ensures SimpleEdges(paths[i]) || shown[i] == found[0] {
      assert shown[i] in shown && shown[i] in found[..|shown|];
      FitsIsFitting(q, maxEdges, shown[i]);
    }
    forall p, r | p in paths && !SimpleEdges(p) && FittingEdges(q, maxEdges, r) ensures |p| <= |r| {
      var i :| 0 <= i < |paths| && paths[i] == p;
      assert shown[i] in shown;
      FitsIsFitting(q, maxEdges, shown[i]);
      FittingFits(q, maxEdges, r);
    }
  }

  // One more path was found than is shown.
  lemma OneLeft(q: Query, maxEdges: int, k: nat, found: seq<Path>, shown: seq<Path>)
    requires q.graph.Valid() && Sound(q, maxEdges, k, found) && Shows(q, k, found, shown) && |found| > k
    ensures FittingEdges(q, maxEdges, EdgePairs(found[k])) && EdgePairs(found[k]) !in EdgesOfPaths(shown)
    ensures found[k] !in shown
  {
    ShownFit(q, maxEdges, k, found, shown);
    FitsIsFitting(q, maxEdges, found[k]);
    var edges := EdgePairs(found[k]);
    PairsMember(q, maxEdges, shown, edges);
    WalkIsRoute(q, found[k]);
    assert found[k] !in found[..k];
  }

  lemma ShownSensible(q: Query, maxEdges: int, k: nat, found: seq<Path>, shown: seq<Path>)
    requires q.graph.Valid() && Sound(q, maxEdges, k, found) && Shows(q, k, found, shown)
    requires found == [] <==> forall p :: !Fits(q, maxEdges, p)
    ensures Sensible(q, maxEdges, k, EdgesOfPaths(shown), |found| > k)
  {
    ShownFit(q, maxEdges, k, found, shown);
    AscendingPairs(q, maxEdges, shown);
    ShownPairsFit(q, maxEdges, shown);
    ReuseOfShown(q, maxEdges, k, found, shown);
    if |found| > k { OneLeft(q, maxEdges, k, found, shown); }
    if found == [] {
      forall edges ensures !FittingEdges(q, maxEdges, edges) {
        if FittingEdges(q, maxEdges, edges) { FittingFits(q, maxEdges, edges); }
      }
    } else {
      FitsIsFitting(q, maxEdges, found[0]);
    }
  }

  lemma ShownRanked(q: Query, maxEdges: int, k: nat, found: seq<Path>, shown: seq<Path>)
    requires q.graph.Valid() && Sound(q, maxEdges, k, found) && Shows(q, k, found, shown)
    requires Exhaustive(q, maxEdges, k, found)
    ensures Ranked(q, maxEdges, k, EdgesOfPaths(shown), |found| > k)
  {
    ShownFit(q, maxEdges, k, found, shown);
    ShownPairsFit(q, maxEdges, shown);
    var paths := EdgesOfPaths(shown);
    forall p | p in paths ensures LegalPath(q, maxEdges, p) {
      PairsMember(q, maxEdges, shown, p);
      FittingFits(q, maxEdges, p);
      assert Route(p) in found;
    }
    forall r | LegalPath(q, maxEdges, r) && r !in paths ensures |found| > k && forall p :: p in paths ==> |p| <= |r| {
      PairsMember(q, maxEdges, shown, r);
      FittingFits(q, maxEdges, r);
      NotShown(q, maxEdges, k, found, shown, r);
    }
    if |found| > k {
      OneLeft(q, maxEdges, k, found, shown);
      assert found[k] in found;
      FitsIsFitting(q, maxEdges, found[k]);
    }
  }

  lemma NotShown(q: Query, maxEdges: int, k: nat, found: seq<Path>, shown: seq<Path>, r: Edges)
    requires q.graph.Valid() && Sound(q, maxEdges, k, found) && Shows(q, k, found, shown)
    requires Exhaustive(q, maxEdges, k, found) && LegalPath(q, maxEdges, r) && Legal(q, maxEdges, Route(r))
    requires Route(r) !in shown
    requires EdgeCount(Route(r)) == |r|
    ensures |found| > k && forall p :: p in EdgesOfPaths(shown) ==> |p| <= |r|
  {
    if Route(r) in found {
      var j :| 0 <= j < |found| && found[j] == Route(r);
      assert j >= |shown| && j == k;
    }
    forall p | p in EdgesOfPaths(shown) ensures |p| <= |r| {
      var i :| 0 <= i < |shown| && EdgesOfPaths(shown)[i] == p;
      assert shown[i] in shown && shown[i] in found[..k];
      var j :| 0 <= j < k && found[j] == shown[i];
      FitsIsFitting(q, maxEdges, shown[i]);
      assert EdgeCount(found[j]) <= EdgeCount(found[k]);
    }
  }

  // `sorted(found[:k], ...)`
  method InAnswerOrder(q: Query, maxEdges: int, k: nat, found: seq<Path>) returns (shown: seq<Path>)
    requires q.graph.Valid() && Sound(q, maxEdges, k, found)
    ensures Shows(q, k, found, shown)
  {
    var first := FirstOf(found, k);
    var paths := set p | p in first;
    forall x, y | x in paths && y in paths && AnswerKey(q.graph, x) == AnswerKey(q.graph, y) ensures x == y {
      AnswerKeyInjective(q, x, y);
    }
    DistinctSize(first);
    shown := Sorted(paths, p => AnswerKey(q.graph, p));
  }

  lemma ShownExactly(q: Query, maxEdges: int, k: nat, found: seq<Path>, shown: seq<Path>)
    requires q.graph.Valid() && Sound(q, maxEdges, k, found) && Shows(q, k, found, shown)
    ensures forall edges :: edges in EdgesOfPaths(shown) <==>
                              FittingEdges(q, maxEdges, edges) && Route(edges) in FirstOf(found, k)
  {
    ShownFit(q, maxEdges, k, found, shown);
    ShownPairsFit(q, maxEdges, shown);
    forall edges | FittingEdges(q, maxEdges, edges) ensures edges in EdgesOfPaths(shown) <==> Route(edges) in shown {
      PairsMember(q, maxEdges, shown, edges);
    }
  }

  // What a run returns that has found `found`.
  ghost predicate Returns(q: Query, maxEdges: int, k: nat, found: seq<Path>, paths: seq<Edges>, more: bool)
    requires q.graph.Valid()
  {
    && Sound(q, maxEdges, k, found) && Grown(q, maxEdges, found) && more == (|found| > k)
    && exists shown :: Shows(q, k, found, shown) && paths == EdgesOfPaths(shown)
  }

  lemma ReturnedExactly(q: Query, maxEdges: int, k: nat, found: seq<Path>, paths: seq<Edges>, more: bool, e: Edges)
    requires q.graph.Valid() && Returns(q, maxEdges, k, found, paths, more)
    ensures e in paths <==> FittingEdges(q, maxEdges, e) && Route(e) in FirstOf(found, k)
  {
    var shown :| Shows(q, k, found, shown) && paths == EdgesOfPaths(shown);
    ShownExactly(q, maxEdges, k, found, shown);
  }

  // An uncancelled run in which no search reuses a definition returns the k shortest paths.
  lemma RankedUnlessReused(q: Query, maxEdges: int, k: nat, found: seq<Path>, paths: seq<Edges>, more: bool)
    requires q.graph.Valid() && Returns(q, maxEdges, k, found, paths, more) && Ended(q, maxEdges, k, found)
    requires !Reuses(q, maxEdges, k, found)
    ensures Ranked(q, maxEdges, k, paths, more)
  {
    var shown :| Shows(q, k, found, shown) && paths == EdgesOfPaths(shown);
    EndedExhaustive(q, maxEdges, k, found);
    ShownRanked(q, maxEdges, k, found, shown);
  }

  // Every uncancelled run does where no path within the limit turns back.
  lemma RankedUnlessTurningBack(q: Query, maxEdges: int, k: nat, found: seq<Path>, paths: seq<Edges>, more: bool)
    requires q.graph.Valid() && Returns(q, maxEdges, k, found, paths, more) && Ended(q, maxEdges, k, found)
    requires NoTurningBack(q, maxEdges)
    ensures Ranked(q, maxEdges, k, paths, more)
  {
    NeverReuses(q, maxEdges, k, found);
    RankedUnlessReused(q, maxEdges, k, found, paths, more);
  }

  // The answer to a request for `k` paths, and whether more exist; `found` are the paths of the run.
  method RankPaths(q: Query, k: nat, maxEdges: int, cancelled: nat -> bool)
    returns (paths: seq<Edges>, more: bool, ghost found: seq<Path>)
    requires q.graph.Valid()
    ensures Sensible(q, maxEdges, k, paths, more)
    ensures Returns(q, maxEdges, k, found, paths, more)
    ensures forall edges :: edges in paths <==>
                              FittingEdges(q, maxEdges, edges) && Route(edges) in FirstOf(found, k)
    ensures TakesLeast(q, maxEdges, found) && StopsAt(q, maxEdges, k, found, cancelled)
    ensures (forall turn :: !cancelled(turn)) ==> Ended(q, maxEdges, k, found)
    ensures (forall turn :: !cancelled(turn)) && !Reuses(q, maxEdges, k, found) ==> Ranked(q, maxEdges, k, paths, more)
    ensures (forall turn :: !cancelled(turn)) && NoTurningBack(q, maxEdges) ==> Ranked(q, maxEdges, k, paths, more)
  {
    var all := FindPaths(q, k, maxEdges, cancelled);
    found := all;
    var shown := InAnswerOrder(q, maxEdges, k, all);
    ShownSensible(q, maxEdges, k, all, shown);
    ShownExactly(q, maxEdges, k, all, shown);
    paths, more := EdgesOfPaths(shown), |all| > k;
    if forall turn :: !cancelled(turn) {
      if !Reuses(q, maxEdges, k, all) { RankedUnlessReused(q, maxEdges, k, all, paths, more); }
      if NoTurningBack(q, maxEdges) { RankedUnlessTurningBack(q, maxEdges, k, all, paths, more); }
    }
  }
}
