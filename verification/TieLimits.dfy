// Where the cap on the number of paths cuts through paths with equally many directed edges, which
// of them are returned is not decided by edge IDs.
module TieLimits {
  import opened Order
  import opened Model
  import opened Derivation
  import opened PathGraphs
  import opened Routes
  import opened Sets
  import opened KShortest
  import opened DerivedGraph
  import opened EdgePaths
  import opened Exactness
  import opened RankedPaths
  import opened ExactLimits
  import opened TieBreak
  import opened FirstPath
  import opened Samples
  import opened TieSearch

  // The path of one edge between the `i`-th definitions of both datasets.
  function Direct(n: nat, i: nat): Edges { [(i, n + i)] }

  lemma TwinPath(q: Query, n: nat, e: Edges)
    requires Twinned(q, n) && LegalEdges(q, e)
    ensures exists i: nat :: i < n && e == Direct(n, i)
  {
    var i := e[0].0;
    assert LegalAt(q, e, 0);
    assert i in q.graph.On("s") && i < n;
    assert LeadsAcross(q.graph, n, i);
    var x :| x in q.graph.From(i) && x.target == e[0].1;
    assert x == q.graph.From(i)[0] && q.graph.keys[n + i].nodeId == "t";
    assert e == Direct(n, i);
  }

  lemma TwinPathLegal(q: Query, n: nat, maxEdges: int, i: nat)
    requires Twinned(q, n) && maxEdges >= 1 && i < n
    ensures LegalPath(q, maxEdges, Direct(n, i))
  {
    var e := Direct(n, i);
    assert LeadsAcross(q.graph, n, i);
    assert q.graph.From(i)[0] in q.graph.From(i) && Linked(q, i, n + i);
    assert UpTo(n)[i] == i && i in q.graph.On("s");
    assert LegalAt(q, e, 0);
  }

  lemma TwinsNeverTurnBack(q: Query, n: nat, maxEdges: int)
    requires Twinned(q, n) && maxEdges >= 1
    ensures NoTurningBack(q, maxEdges)
  {
    forall e: Edges | FittingEdges(q, maxEdges, e) && StatesOnce(e) ensures SimpleEdges(e) {
      TwinPath(q, n, e);
      var i: nat :| i < n && e == Direct(n, i);
      TwinPathLegal(q, n, maxEdges, i);
    }
  }

  // ---------- their order ----------

  lemma TwinId(n: nat, i: nat)
    requires i < n
    ensures EdgeIdFor(TwinKey(n, i), TwinKey(n, n + i)) == NameSide('s', i) + "__" + NameSide('t', i)
  {
    var a, b := EndpointKey(TwinKey(n, i)).items, EndpointKey(TwinKey(n, n + i)).items;
    assert TextLeq("s", "t") && a[0] == Text("s") && b[0] == Text("t");
    assert TupleLeq(a, b);
    TwinSide(n, i);
    TwinSide(n, n + i);
  }

  lemma TwinEdgeId(g: PathGraph, n: nat, i: nat)
    requires DerivedFrom(g, Twins(n)) && i < n
    ensures EdgeIdOf(g, (i, n + i)) == NameSide('s', i) + "__" + NameSide('t', i)
  {
    TwinId(n, i);
    assert SameIdentity(g, i, n + i) && g.keys[i] == TwinKey(n, i) && g.keys[n + i] == TwinKey(n, n + i) by {
      TwinKeysAt(g, n);
      TwinsAlike(g, n, i, n + i);
    }
    PairedId(g, Twins(n), i, n + i);
  }

  lemma TwinIdOrder(i: nat, j: nat, a: string, b: string)
    requires i < j
    requires a == NameSide('s', i) + "__" + NameSide('t', i) && b == NameSide('s', j) + "__" + NameSide('t', j)
    ensures TextLeq(a, b) && a != b
  {
    assert a[i + 3] == ':' && b[i + 3] == 'a';
    assert a[..i + 3] == ['s', ':'] + Name(i) && b[..i + 3] == ['s', ':'] + Name(j)[..i + 1];
    assert Name(j)[..i + 1] == Name(i);
    FirstDifference(a, b, i + 3);
  }

  // The edges rank as they are numbered.
  lemma TwinOrder(g: PathGraph, n: nat, i: nat, j: nat)
    requires DerivedFrom(g, Twins(n)) && i < j < n
    ensures Leq(EdgesKey(g, Direct(n, i)), EdgesKey(g, Direct(n, j)))
  {
    TwinEdgeId(g, n, i);
    TwinEdgeId(g, n, j);
    TwinIdOrder(i, j, EdgeIdOf(g, (i, n + i)), EdgeIdOf(g, (j, n + j)));
    LowerId(g, (i, n + i), (j, n + j));
  }

  // ---------- the answer ----------

  lemma HighestRoute(n: nat)
    requires n > 0
    ensures Route(Direct(n, n - 1)) == Across(n, n - 1)
  {}

  // The first search returns the edge that ranks highest, so it is in every answer.
  lemma HighestFound(q: Query, n: nat, maxEdges: int, k: nat, found: seq<Path>)
    requires Twinned(q, n) && n > 0 && maxEdges >= 1 && k >= 1
    requires Grown(q, maxEdges, found) && found != []
    ensures Route(Direct(n, n - 1)) in FirstOf(found, k)
  {
    LastTwinFirst(q, n, maxEdges);
    HighestRoute(n);
    assert FirstOf(found, k)[0] == found[0];
  }

  function Directs(n: nat): seq<Edges> { seq(n, i requires 0 <= i < n => Direct(n, i)) }

  lemma DirectsDiffer(n: nat)
    ensures NoDuplicates(Directs(n)) && |Directs(n)| == n
  {
    forall i, j | 0 <= i < j < n ensures Directs(n)[i] != Directs(n)[j] {
      assert Directs(n)[i][0] == (i, n + i) && Directs(n)[j][0] == (j, n + j);
    }
  }

  // A list of fewer than `n` paths leaves one of them out.
  lemma OneLeftOut(n: nat, paths: seq<Edges>) returns (i: nat)
    requires |paths| < n && NoDuplicates(paths)
    ensures i < n && Direct(n, i) !in paths
  {
    var all := Directs(n);
    DirectsDiffer(n);
    if forall e :: e in all ==> e in paths {
      var s, t := set e | e in all, set e | e in paths;
      DistinctSize(all);
      DistinctSize(paths);
      SubsetSize(s, t);
      assert false;
    }
    var e :| e in all && e !in paths;
    i :| 0 <= i < n && all[i] == e;
  }

  // A path that is not in the answer ranks below one that is.
  ghost predicate Misranks(q: Query, maxEdges: int, paths: seq<Edges>, p: Edges, r: Edges) {
    && LegalPath(q, maxEdges, p) && p !in paths && r in paths && |p| == |r|
    && p != r && Leq(EdgesKey(q.graph, p), EdgesKey(q.graph, r))
  }

  lemma MisranksNotBest(q: Query, maxEdges: int, k: nat, paths: seq<Edges>, p: Edges, r: Edges)
    requires q.graph.Valid() && Misranks(q, maxEdges, paths, p, r) && LegalPath(q, maxEdges, r)
    ensures !IsBest(q, maxEdges, k, paths)
  {
    if IsBest(q, maxEdges, k, paths) {
      Total(EdgesKey(q.graph, p), EdgesKey(q.graph, r));
      KeysDiffer(q, maxEdges, p, r);
    }
  }

  // However the cap is drawn, it leaves out a path as short as those it lets in.
  lemma TwinsTied(q: Query, n: nat, maxEdges: int, k: nat)
    requires Twinned(q, n) && maxEdges >= 1 && 1 <= k < n
    ensures !NoTieAt(q, maxEdges, k)
  {
    forall best ensures !CutsClean(q, maxEdges, k, best) {
      if |best| <= k && NoDuplicates(best) {
        var i := OneLeftOut(n, best);
        TwinPathLegal(q, n, maxEdges, i);
        if best != [] {
          assert best[0] in best && (LegalPath(q, maxEdges, best[0]) ==> |best[0]| >= |Direct(n, i)|);
        }
      }
    }
  }

  lemma HighestForLower(q: Query, n: nat, maxEdges: int, paths: seq<Edges>, i: nat, p: Edges, r: Edges)
    requires Twinned(q, n) && DerivedFrom(q.graph, Twins(n)) && maxEdges >= 1
    requires i < n && p == Direct(n, i) && r == Direct(n, n - 1) && p !in paths && r in paths
    ensures Misranks(q, maxEdges, paths, p, r) && LegalPath(q, maxEdges, r)
  {
    TwinPathLegal(q, n, maxEdges, i);
    TwinPathLegal(q, n, maxEdges, n - 1);
    TwinOrder(q.graph, n, i, n - 1);
  }

  lemma TieOutcome(q: Query, n: nat, maxEdges: int, k: nat, paths: seq<Edges>) returns (missed: Edges)
    requires BetweenTwins(q, n) && maxEdges >= 1 && 1 <= k < n && q.graph.Valid()
    requires |paths| <= k && NoDuplicates(paths) && Direct(n, n - 1) in paths
    ensures Misranks(q, maxEdges, paths, missed, Direct(n, n - 1))
    ensures !IsBest(q, maxEdges, k, paths) && !NoTieAt(q, maxEdges, k)
  {
    TwinsGraph(q, n);
    var i := OneLeftOut(n, paths);
    missed := Direct(n, i);
    HighestForLower(q, n, maxEdges, paths, i, missed, Direct(n, n - 1));
    MisranksNotBest(q, maxEdges, k, paths, missed, Direct(n, n - 1));
    TwinsTied(q, n, maxEdges, k);
  }

  lemma AnswerHolds(q: Query, maxEdges: int, k: nat, found: seq<Path>, paths: seq<Edges>, more: bool, e: Edges)
    requires q.graph.Valid() && NoTurningBack(q, maxEdges) && FittingEdges(q, maxEdges, e) && k >= 1
    requires found != [] ==> Route(e) in FirstOf(found, k)
    requires Sensible(q, maxEdges, k, paths, more)
    requires Returns(q, maxEdges, k, found, paths, more) && Ended(q, maxEdges, k, found)
    ensures RankedAnswer(q, maxEdges, k, paths, more) && e in paths
  {
    RankedUnlessTurningBack(q, maxEdges, k, found, paths, more);
    ReturnedExactly(q, maxEdges, k, found, paths, more, e);
  }

  lemma TwinsFound(q: Query, n: nat, maxEdges: int, k: nat, found: seq<Path>, e: Edges)
    requires Twinned(q, n) && n > 0 && maxEdges >= 1 && k >= 1 && Grown(q, maxEdges, found) && e == Direct(n, n - 1)
    ensures NoTurningBack(q, maxEdges) && FittingEdges(q, maxEdges, e)
    ensures found != [] ==> Route(e) in FirstOf(found, k)
  {
    TwinsNeverTurnBack(q, n, maxEdges);
    TwinPathLegal(q, n, maxEdges, n - 1);
    if found != [] { HighestFound(q, n, maxEdges, k, found); }
  }

  lemma FoundBetweenTwins(q: Query, n: nat, maxEdges: int, k: nat, found: seq<Path>, e: Edges)
    requires BetweenTwins(q, n) && n > 0 && q.graph.Valid() && maxEdges >= 1 && k >= 1
    requires Grown(q, maxEdges, found) && e == Direct(n, n - 1)
    ensures NoTurningBack(q, maxEdges) && FittingEdges(q, maxEdges, e)
    ensures found != [] ==> Route(e) in FirstOf(found, k)
  {
    TwinsGraph(q, n);
    TwinsFound(q, n, maxEdges, k, found, e);
  }

  // What an uncancelled run between the twins comes to.
  lemma TwinsAnswered(q: Query, n: nat, maxEdges: int, k: nat, found: seq<Path>, paths: seq<Edges>, more: bool,
                      e: Edges)
    requires BetweenTwins(q, n) && n > 0 && maxEdges >= 1 && k >= 1 && e == Direct(n, n - 1)
    requires MayReturn(q, maxEdges, k, found, paths, more) && Sensible(q, maxEdges, k, paths, more)
    ensures RankedAnswer(q, maxEdges, k, paths, more) && e in paths
  {
    FoundBetweenTwins(q, n, maxEdges, k, found, e);
    AnswerHolds(q, maxEdges, k, found, paths, more, e);
  }

  // Whatever the cap: on two datasets with more entities in common than paths are asked for, the path that
  // ranks highest is returned in place of one that ranks lower.
  method TieDecidedByNumber(n: nat, maxEdges: int, k: nat)
    returns (q: Query, paths: seq<Edges>, more: bool, ghost found: seq<Path>, ghost missed: Edges)
    requires maxEdges >= 1 && 1 <= k < n
    ensures BetweenTwins(q, n) && MayReturn(q, maxEdges, k, found, paths, more)
    ensures RankedAnswer(q, maxEdges, k, paths, more)
    ensures Misranks(q, maxEdges, paths, missed, Direct(n, n - 1))
    ensures !IsBest(q, maxEdges, k, paths) && !NoTieAt(q, maxEdges, k)
  {
    TwinsSample(n);
    var g := SampleGraph(Twins(n), TwinKeys(n));
    q := Query(g, "s", "t", None);
    DerivedJoinsIdentities(g, Twins(n));
    paths, more, found := RankPaths(q, k, maxEdges, turn => false);
    TwinsAnswered(q, n, maxEdges, k, found, paths, more, Direct(n, n - 1));
    missed := TieOutcome(q, n, maxEdges, k, paths);
  }

  // ---------- for every request ----------

  // With this limit and cap, every uncancelled run for such a request returns the best paths.
  ghost predicate BestUpTo(same: bool, filtered: bool, maxEdges: int, k: nat) {
    forall q, found, paths, more ::
      DerivedRequest(q, same, filtered) && MayReturn(q, maxEdges, k, found, paths, more) ==>
        IsBest(q, maxEdges, k, paths)
  }

  lemma NothingReturned(q: Query, maxEdges: int, k: nat, found: seq<Path>, paths: seq<Edges>, more: bool)
    requires MayReturn(q, maxEdges, k, found, paths, more) && (k == 0 || maxEdges <= 0)
    ensures paths == [] && IsBest(q, maxEdges, k, paths)
  {
    if paths != [] { ReturnedExactly(q, maxEdges, k, found, paths, more, paths[0]); }
  }

  // Only where no path may be returned at all.
  method IsBestUpTo(maxEdges: int, k: nat) returns (best: bool)
    ensures best == (k == 0 || maxEdges <= 0)
    ensures best ==> BestUpTo(true, true, maxEdges, k) && BestUpTo(false, true, maxEdges, k)
    ensures !best ==> !BestUpTo(false, false, maxEdges, k)
  {
    best := k == 0 || maxEdges <= 0;
    if best {
      forall q, found, paths, more | MayReturn(q, maxEdges, k, found, paths, more)
        ensures IsBest(q, maxEdges, k, paths)
      {
        NothingReturned(q, maxEdges, k, found, paths, more);
      }
      return;
    }
    var q, paths, more;
    ghost var found, missed;
    q, paths, more, found, missed := TieDecidedByNumber(k + 1, maxEdges, k);
    assert DerivedRequest(q, false, false);
  }
}
