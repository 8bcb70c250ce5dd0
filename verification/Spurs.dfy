// Yen's deviations: the spur searches behind the k shortest paths, and what a list of found paths
// knows once all of its spurs have been tried.
module Spurs {
  import opened Model
  import opened PathGraphs
  import opened ZeroOneSearch

  // `_simple`: no definition twice.
  predicate Simple(p: Path) {
    forall i, j :: 0 <= i < j < |p| && p[i] >= 0 && p[j] >= 0 ==> p[i] / 2 != p[j] / 2
  }

  // A path within the limit, which may still reuse a definition.
  ghost predicate Fits(q: Query, maxEdges: int, p: Path) {
    WalkToTarget(q, NO_CUTS, SOURCE, p) && EdgeCount(p) <= maxEdges
  }

  ghost predicate Legal(q: Query, maxEdges: int, p: Path) {
    Fits(q, maxEdges, p) && Simple(p)
  }

  // ---------- cuts of a spur search ----------

  function Removed(found: seq<Path>, root: Path): set<(State, State)>
    requires root != []
  {
    set f | f in found && |f| > |root| && f[..|root|] == root :: (f[|root| - 1], f[|root|])
  }

  function Blocked(root: Path): set<int>
    requires root != []
  {
    set s | s in root[..|root| - 1] && s >= 0 :: s / 2
  }

  function CutsAt(found: seq<Path>, root: Path): Cuts
    requires root != []
  {
    Cuts(Blocked(root), Removed(found, root))
  }

  ghost function Spur(q: Query, maxEdges: int, found: seq<Path>, root: Path): Option<Path>
    requires q.graph.Valid() && root != [] && IsState(q, root[|root| - 1])
  {
    Shortest(q, root[|root| - 1], CutsAt(found, root), maxEdges - EdgeCount(root))
  }

  function Join(root: Path, spur: Path): Path
    requires root != []
  {
    root[..|root| - 1] + spur
  }

  // A proper beginning of some path of the graph.
  ghost predicate IsRoot(q: Query, maxEdges: int, f: Path, root: Path) {
    Fits(q, maxEdges, f) && 0 < |root| < |f| && f[..|root|] == root
  }

  lemma WalkStates(q: Query, p: Path, i: nat)
    requires q.graph.Valid() && WalkToTarget(q, NO_CUTS, SOURCE, p) && i < |p|
    ensures IsState(q, p[i])
    ensures p[i] == TARGET <==> i == |p| - 1
    ensures p[i] == SOURCE <==> i == 0
  {
    if i < |p| - 1 {
      assert WalkAt(q, NO_CUTS, p, i);
      MoveInside(q, p[i], p[i + 1]);
    }
    if i > 0 {
      assert WalkAt(q, NO_CUTS, p, i - 1);
      MoveInside(q, p[i - 1], p[i]);
    }
  }

  lemma RootFacts(q: Query, maxEdges: int, f: Path, root: Path)
    requires q.graph.Valid() && IsRoot(q, maxEdges, f, root)
    ensures IsState(q, root[|root| - 1]) && root[|root| - 1] != TARGET && root[0] == SOURCE
  {
    WalkStates(q, f, |root| - 1);
    assert f[|root| - 1] == root[|root| - 1];
  }

  // Cutting a walk at a root.
  lemma SuffixWalks(q: Query, cuts: Cuts, p: Path, i: nat)
    requires i < |p| && p[|p| - 1] == TARGET
    requires forall j :: i <= j < |p| - 1 ==> Move(q, p[j], p[j + 1]) && Uncut(cuts, p[j], p[j + 1])
    ensures WalkToTarget(q, cuts, p[i], p[i..])
  {
    forall j | 0 <= j < |p[i..]| - 1 ensures WalkAt(q, cuts, p[i..], j) {
      assert p[i..][j] == p[i + j] && p[i..][j + 1] == p[i + j + 1];
    }
  }

  lemma CountSplit(p: Path, i: nat)
    requires i < |p|
    ensures EdgeCount(p) == EdgeCount(p[..i + 1]) + WalkCost(p[i..])
  {
    assert p == p[..i + 1] + p[i..][1..];
    EdgeCountConcat(p[..i + 1], p[i..][1..]);
  }

  lemma JoinFacts(root: Path, spur: Path)
    requires root != [] && |spur| > 1 && spur[0] == root[|root| - 1]
    ensures var p := Join(root, spur);
            && |root| < |p| && p[..|root|] == root && p[|root| - 1..] == spur && p[|root|] == spur[1]
            && EdgeCount(p) == EdgeCount(root) + WalkCost(spur)
  {
    var p := Join(root, spur);
    assert p == root + spur[1..];
    EdgeCountConcat(root, spur[1..]);
  }

  // The result of a spur search continues its root into a path of the graph, by a new move.
  lemma SpurSound(q: Query, maxEdges: int, found: seq<Path>, f: Path, root: Path)
    requires q.graph.Valid() && IsRoot(q, maxEdges, f, root) && IsState(q, root[|root| - 1])
    requires Spur(q, maxEdges, found, root).Some?
    ensures var spur := Spur(q, maxEdges, found, root).value;
            && |spur| > 1 && spur[0] == root[|root| - 1]
            && Fits(q, maxEdges, Join(root, spur)) && IsRoot(q, maxEdges, Join(root, spur), root)
            && (root[|root| - 1], Join(root, spur)[|root|]) !in Removed(found, root)
  {
    var start, cuts := root[|root| - 1], CutsAt(found, root);
    var spur := Spur(q, maxEdges, found, root).value;
    RootFacts(q, maxEdges, f, root);
    ShortestAnswers(q, start, cuts, maxEdges - EdgeCount(root));
    JoinFacts(root, spur);
    assert WalkAt(q, cuts, spur, 0);
    var p := Join(root, spur);
    forall i | 0 <= i < |p| - 1 ensures WalkAt(q, NO_CUTS, p, i) {
      if i < |root| - 1 {
        assert WalkAt(q, NO_CUTS, f, i) && p[i] == root[i] == f[i] && p[i + 1] == root[i + 1] == f[i + 1];
      } else {
        assert WalkAt(q, cuts, spur, i - (|root| - 1));
        assert p[i] == spur[i - (|root| - 1)] && p[i + 1] == spur[i + 1 - (|root| - 1)];
      }
    }
  }

  lemma SimpleAvoids(p: Path, root: Path, j: nat)
    requires Simple(p) && 0 < |root| <= j < |p| && p[..|root|] == root
    ensures p[j] >= 0 ==> p[j] / 2 !in Blocked(root)
  {
    forall s | s in root[..|root| - 1] && s >= 0 && p[j] >= 0 ensures s / 2 != p[j] / 2 {
      var i :| 0 <= i < |root| - 1 && root[..|root| - 1][i] == s;
      assert p[i] == root[i] == s;
    }
  }

  // Past its root, a path without a repeated definition is a walk a spur search may take.
  lemma LegalSuffix(q: Query, maxEdges: int, p: Path, root: Path, removed: set<(State, State)>)
    requires q.graph.Valid() && Legal(q, maxEdges, p) && IsRoot(q, maxEdges, p, root)
    requires (root[|root| - 1], p[|root|]) !in removed
    requires forall m :: m in removed ==> m.0 == root[|root| - 1]
    ensures WalkToTarget(q, Cuts(Blocked(root), removed), root[|root| - 1], p[|root| - 1..])
  {
    var n, cuts := |root| - 1, Cuts(Blocked(root), removed);
    assert p[n] == root[n];
    forall j | n <= j < |p| - 1 ensures Move(q, p[j], p[j + 1]) && Uncut(cuts, p[j], p[j + 1]) {
      assert WalkAt(q, NO_CUTS, p, j);
      WalkStates(q, p, j);
      WalkStates(q, p, n);
      SimpleAvoids(p, root, j + 1);
      if j > n && (p[j], p[j + 1]) in removed {
        assert false;
      }
    }
    SuffixWalks(q, cuts, p, n);
  }

  lemma SuffixCost(p: Path, root: Path)
    requires 0 < |root| < |p| && p[..|root|] == root
    ensures EdgeCount(p) == EdgeCount(root) + WalkCost(p[|root| - 1..])
  {
    CountSplit(p, |root| - 1);
    assert p[..|root| - 1 + 1] == root;
  }

  lemma AnswerBeats(q: Query, start: State, cuts: Cuts, budget: int, answer: Option<Path>, p: Path)
    requires q.graph.Valid() && IsState(q, start) && answer == Shortest(q, start, cuts, budget)
    requires WalkToTarget(q, cuts, start, p) && WalkCost(p) <= budget
    ensures answer.Some? && answer.value != [] && WalkCost(answer.value) <= WalkCost(p)
  {
    ShortestAnswers(q, start, cuts, budget);
  }

  lemma RemovedLeaveRoot(found: seq<Path>, root: Path)
    requires root != []
    ensures forall m :: m in Removed(found, root) ==> m.0 == root[|root| - 1]
  {
    forall m | m in Removed(found, root) ensures m.0 == root[|root| - 1] {
      var f :| f in found && |f| > |root| && f[..|root|] == root && m == (f[|root| - 1], f[|root|]);
      assert f[..|root|][|root| - 1] == f[|root| - 1];
    }
  }

  // The spur competes with every walk its search may take.
  lemma SpurBeats(q: Query, maxEdges: int, found: seq<Path>, root: Path, suffix: Path)
    requires q.graph.Valid() && root != [] && IsState(q, root[|root| - 1])
    requires WalkToTarget(q, CutsAt(found, root), root[|root| - 1], suffix)
    requires EdgeCount(root) + WalkCost(suffix) <= maxEdges
    ensures Spur(q, maxEdges, found, root).Some? && Spur(q, maxEdges, found, root).value != []
    ensures WalkCost(Spur(q, maxEdges, found, root).value) <= WalkCost(suffix)
  {
    AnswerBeats(q, root[|root| - 1], CutsAt(found, root), maxEdges - EdgeCount(root),
                Spur(q, maxEdges, found, root), suffix);
  }

  // No legal path that leaves the root by another move is cheaper than the spur.
  lemma SpurBest(q: Query, maxEdges: int, found: seq<Path>, p: Path, root: Path)
    requires q.graph.Valid() && Legal(q, maxEdges, p) && IsRoot(q, maxEdges, p, root) && IsState(q, root[|root| - 1])
    requires (root[|root| - 1], p[|root|]) !in Removed(found, root)
    ensures Spur(q, maxEdges, found, root).Some? && Spur(q, maxEdges, found, root).value != []
    ensures EdgeCount(root) + WalkCost(Spur(q, maxEdges, found, root).value) <= EdgeCount(p)
  {
    RemovedLeaveRoot(found, root);
    LegalSuffix(q, maxEdges, p, root, Removed(found, root));
    SuffixCost(p, root);
    SpurBeats(q, maxEdges, found, root, p[|root| - 1..]);
  }
}
