// Where the k shortest paths miss one: a search that comes back with a reused definition is
// dropped, and with it whatever legal paths that search stood for.
module YenLimits {
  import opened Model
  import opened PathGraphs
  import opened ZeroOneSearch
  import opened Spurs
  import opened Routes
  import opened KShortest
  import opened EdgePaths
  import opened RankedPaths
  import opened FirstPath
  import opened Samples
  import opened MazeSearch

  const DIRECT: Edges := [(6, 8)]

  const MISSED: Edges := [(6, 3), (0, 4), (5, 7)]

  lemma MazeLinked(q: Query, x: nat, y: nat)
    requires Mazed(q)
    ensures Linked(q, x, y) <==>
              x < 9 && y < 9 && x != y && q.graph.keys[x].identityId == q.graph.keys[y].identityId
  {
    LinkedIsSameIdentity(q, x, y);
  }

  lemma MissedIsSimple(e: Edges)
    requires e == MISSED
    ensures SimpleEdges(e)
  {
    assert Stop(e, 0) == 6 && Stop(e, 1) == 3 && Stop(e, 2) == 0;
    assert Stop(e, 3) == 4 && Stop(e, 4) == 5 && Stop(e, 5) == 7;
  }

  lemma MissedLinked(q: Query)
    requires Mazed(q)
    ensures Linked(q, 6, 3) && Linked(q, 0, 4) && Linked(q, 5, 7)
  {
    MazeLinked(q, 6, 3);
    MazeLinked(q, 0, 4);
    MazeLinked(q, 5, 7);
  }

  lemma MissedLegalAt(q: Query, e: Edges, i: nat)
    requires Mazed(q) && Linked(q, 6, 3) && Linked(q, 0, 4) && Linked(q, 5, 7)
    requires e == MISSED && i < 3
    ensures LegalAt(q, e, i)
  {
    assert KeyFits(q.graph.keys[e[i].0], e[i].0) && KeyFits(q.graph.keys[e[i].1], e[i].1);
  }

  lemma ThreeLegal(q: Query, maxEdges: int, e: Edges)
    requires |e| == 3 && LegalAt(q, e, 0) && LegalAt(q, e, 1) && LegalAt(q, e, 2) && SimpleEdges(e) && maxEdges >= 3
    ensures LegalPath(q, maxEdges, e)
  {}

  lemma MissedIsLegal(q: Query, maxEdges: int, e: Edges)
    requires Mazed(q) && maxEdges >= 3 && e == MISSED
    ensures LegalPath(q, maxEdges, e)
  {
    MissedIsSimple(e);
    MissedLinked(q);
    MissedLegalAt(q, e, 0);
    MissedLegalAt(q, e, 1);
    MissedLegalAt(q, e, 2);
    ThreeLegal(q, maxEdges, e);
  }

  lemma DirectFits(q: Query)
    requires Mazed(q)
    ensures LegalEdges(q, DIRECT)
  {
    var e := DIRECT;
    MazeLinked(q, 6, 8);
    assert LegalAt(q, e, 0);
  }

  // A path of one edge is the direct one.
  lemma OneEdgeIsDirect(q: Query, e: Edges)
    requires Mazed(q) && LegalEdges(q, e) && |e| == 1
    ensures e == DIRECT
  {
    var x, y := e[0].0, e[0].1;
    assert LegalAt(q, e, 0);
    MazeLinked(q, x, y);
    assert KeyFits(q.graph.keys[x], x) && KeyFits(q.graph.keys[y], y);
    assert x == 6 && y == 8;
  }

  lemma DirectStates()
    ensures Route(DIRECT) == [SOURCE, 12, 17, TARGET]
  {}

  // The first search takes the direct edge.
  lemma FirstIsDirect(q: Query, maxEdges: int, first: Path)
    requires Mazed(q) && maxEdges >= 1 && Shortest(q, SOURCE, NO_CUTS, maxEdges) == Some(first)
    ensures first == Route(DIRECT) && Fits(q, maxEdges, first)
  {
    ShortestAnswers(q, SOURCE, NO_CUTS, maxEdges);
    FirstStarts(q, maxEdges, first);
    DirectFits(q);
    FittingFits(q, maxEdges, DIRECT);
    FitsIsFitting(q, maxEdges, first);
    OneEdgeIsDirect(q, EdgePairs(first));
    WalkIsRoute(q, first);
  }

  // ---------- searching on from the direct path ----------

  // The source leads only to `z` on s, and the target's side only on to the target.
  lemma OnlyMoves(q: Query, b: State)
    requires Mazed(q)
    ensures Move(q, SOURCE, b) ==> b == 12
    ensures Move(q, 17, b) ==> b == TARGET
  {}

  // So only the search that leaves `z` on s by another edge can find something.
  lemma LeavesReady(q: Query, maxEdges: int, direct: Path, n: nat)
    requires Mazed(q) && direct == [SOURCE, 12, 17, TARGET] && Fits(q, maxEdges, direct)
    requires 0 < n < |direct| && IsState(q, direct[..n][n - 1]) && Spur(q, maxEdges, [direct], direct[..n]).Some?
    ensures n == 2
  {
    var root := direct[..n];
    SpurSound(q, maxEdges, [direct], direct, root);
    var p := Join(root, Spur(q, maxEdges, [direct], root).value);
    assert (direct[n - 1], direct[n]) in Removed([direct], root);
    assert WalkAt(q, NO_CUTS, p, n - 1) && p[n - 1] == root[n - 1] == direct[n - 1];
    OnlyMoves(q, p[n]);
  }

  lemma DirectCuts(direct: Path, root: Path)
    requires direct == [SOURCE, 12, 17, TARGET] && root == [SOURCE, 12]
    ensures AfterDirect(CutsAt([direct], root)) && EdgeCount(root) == 0
  {
    assert direct[..2] == root;
    assert EdgeCount([]) == 0 && [SOURCE][..0] == [];
    assert EdgeCount([SOURCE]) == 0 && root[..1] == [SOURCE];
  }

  // That search comes back by a definition it has left.
  lemma SearchReuses(q: Query, maxEdges: int, direct: Path)
    requires Mazed(q) && direct == [SOURCE, 12, 17, TARGET] && maxEdges >= 3
    ensures Spur(q, maxEdges, [direct], [SOURCE, 12]) == Some([12, 7, 4, 3, 6, 17, TARGET])
  {
    var root := [SOURCE, 12];
    DirectCuts(direct, root);
    SpurFrom(q, maxEdges, [direct], root, 12);
    SearchTurnsBack(q, CutsAt([direct], root), maxEdges);
  }

  lemma SpurFrom(q: Query, maxEdges: int, found: seq<Path>, root: Path, start: State)
    requires q.graph.Valid() && root != [] && root[|root| - 1] == start && IsState(q, start) && EdgeCount(root) == 0
    ensures Spur(q, maxEdges, found, root) == Shortest(q, start, CutsAt(found, root), maxEdges)
  {}

  lemma JoinReuses(root: Path, spur: Path)
    requires root == [SOURCE, 12] && spur == [12, 7, 4, 3, 6, 17, TARGET]
    ensures !Simple(Join(root, spur))
  {
    var p := Join(root, spur);
    assert p[2] == 7 && p[5] == 6;
  }

  // Nothing legal comes of the direct path.
  lemma ResultReuses(q: Query, maxEdges: int, direct: Path, p: Path, n: nat)
    requires Mazed(q) && direct == [SOURCE, 12, 17, TARGET] && Fits(q, maxEdges, direct) && maxEdges >= 3
    requires 0 < n < |direct| && ResultAt(q, maxEdges, [direct], p, 1, n)
    ensures !Simple(p)
  {
    assert [direct][..1] == [direct];
    LeavesReady(q, maxEdges, direct, n);
    assert direct[..2] == [SOURCE, 12];
    SearchReuses(q, maxEdges, direct);
    JoinReuses([SOURCE, 12], [12, 7, 4, 3, 6, 17, TARGET]);
  }

  // Only the direct path is ever found.
  lemma SecondReuses(q: Query, maxEdges: int, direct: Path, p: Path)
    requires Mazed(q) && direct == [SOURCE, 12, 17, TARGET] && Fits(q, maxEdges, direct) && maxEdges >= 3
    requires Resulted(q, maxEdges, [direct], p)
    ensures !Simple(p)
  {
    var base := [direct];
    var t: nat, n: nat :| 0 < t <= |base| && 0 < n < |base[t - 1]| && ResultAt(q, maxEdges, base, p, t, n);
    ResultReuses(q, maxEdges, direct, p, n);
  }

  lemma NothingElseFound(q: Query, maxEdges: int, k: nat, found: seq<Path>)
    requires Mazed(q) && maxEdges >= 3 && Sound(q, maxEdges, k, found) && Grown(q, maxEdges, found) && found != []
    ensures found == [Route(DIRECT)]
  {
    FirstIsDirect(q, maxEdges, found[0]);
    DirectStates();
    NoSecond(q, maxEdges, k, found, found[0]);
  }

  lemma NoSecond(q: Query, maxEdges: int, k: nat, found: seq<Path>, direct: Path)
    requires Mazed(q) && maxEdges >= 3 && Sound(q, maxEdges, k, found) && Grown(q, maxEdges, found) && found != []
    requires direct == found[0] == [SOURCE, 12, 17, TARGET]
    ensures |found| == 1
  {
    if |found| > 1 {
      assert found[..1] == [direct];
      SecondReuses(q, maxEdges, direct, found[1]);
    }
  }

  // With nothing but `d` found, nothing else is returned.
  lemma OnlyReturned(q: Query, maxEdges: int, k: nat, found: seq<Path>, paths: seq<Edges>, more: bool, d: Edges,
                     e: Edges)
    requires q.graph.Valid() && Returns(q, maxEdges, k, found, paths, more) && found == [Route(d)] && d != e && k >= 1
    requires LegalPath(q, maxEdges, e)
    ensures e !in paths && !more && !Ranked(q, maxEdges, k, paths, more)
  {
    ReturnedExactly(q, maxEdges, k, found, paths, more, e);
    RoutePairs(d);
    RoutePairs(e);
    assert Route(e) !in found;
  }

  // On this derived graph, unfiltered, every run that may use three or more directed edges misses a
  // legal path of three and reports that there are no more.
  lemma LegalPathMissed(q: Query, maxEdges: int, k: nat, found: seq<Path>, paths: seq<Edges>, more: bool)
    requires InMaze(q) && maxEdges >= 3 && k >= 1 && q.graph.Valid()
    requires Returns(q, maxEdges, k, found, paths, more) && found != []
    ensures LegalPath(q, maxEdges, MISSED) && MISSED !in paths && !more
    ensures !Ranked(q, maxEdges, k, paths, more)
  {
    MazeIsMazed(q);
    NothingElseFound(q, maxEdges, k, found);
    MissedIsLegal(q, maxEdges, MISSED);
    OnlyReturned(q, maxEdges, k, found, paths, more, DIRECT, MISSED);
  }

  // The whole way from the datasets to the answer.
  method MissLegalPath(maxEdges: int, k: nat)
    returns (q: Query, paths: seq<Edges>, more: bool, ghost found: seq<Path>)
    requires maxEdges >= 3 && k >= 1
    ensures InMaze(q) && q.graph.Valid() && Returns(q, maxEdges, k, found, paths, more) && Ended(q, maxEdges, k, found)
    ensures LegalPath(q, maxEdges, MISSED) && MISSED !in paths && !more && !Ranked(q, maxEdges, k, paths, more)
  {
    MazeSample(MAZE, MAZE_KEYS);
    var g := SampleGraph(MAZE, MAZE_KEYS);
    q := Query(g, "s", "t", None);
    MazeIsMazed(q);
    paths, more, found := RankPaths(q, k, maxEdges, turn => false);
    DirectFits(q);
    assert FittingEdges(q, maxEdges, DIRECT);
    LegalPathMissed(q, maxEdges, k, found, paths, more);
  }
}
