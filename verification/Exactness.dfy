// When the ranked paths are the k shortest: a condition on the request alone.
//
// A search passes no state twice, so it can reuse a definition only by arriving at one it also
// leaves.  Where no path within the limit does that, no search result is ever discarded.
module Exactness {
  import opened Order
  import opened Model
  import opened PathGraphs
  import opened ZeroOneSearch
  import opened Spurs
  import opened Routes
  import opened KShortest
  import opened EdgePaths

  // No definition is left twice, and none is arrived at twice.
  ghost predicate StatesOnce(edges: Edges) {
    forall i, j :: 0 <= i < j < |edges| ==> edges[i].0 != edges[j].0 && edges[i].1 != edges[j].1
  }

  // No path within the limit arrives at a definition it also leaves.
  ghost predicate NoTurningBack(q: Query, maxEdges: int) {
    forall edges :: FittingEdges(q, maxEdges, edges) && StatesOnce(edges) ==> SimpleEdges(edges)
  }

  lemma WalkStatesOnce(q: Query, p: Path)
    requires q.graph.Valid() && WalkToTarget(q, NO_CUTS, SOURCE, p) && NoDuplicates(p)
    ensures StatesOnce(EdgePairs(p))
  {
    var edges := EdgePairs(p);
    WalkIsRoute(q, p);
    assert |p| == 2 * |edges| + 2;
    forall i, j | 0 <= i < j < |edges| ensures edges[i].0 != edges[j].0 && edges[i].1 != edges[j].1 {
      RouteStates(edges, i);
      RouteStates(edges, j);
      assert p[2 * i + 1] != p[2 * j + 1] && p[2 * i + 2] != p[2 * j + 2];
    }
  }

  // Found paths and the results of their spur searches pass no state twice.
  lemma SimplePassesOnce(q: Query, p: Path)
    requires q.graph.Valid() && WalkToTarget(q, NO_CUTS, SOURCE, p) && Simple(p)
    ensures NoDuplicates(p)
  {
    forall i, j | 0 <= i < j < |p| ensures p[i] != p[j] {
      WalkStates(q, p, i);
      WalkStates(q, p, j);
    }
  }

  lemma FoundPassesOnce(q: Query, maxEdges: int, k: nat, found: seq<Path>, i: nat)
    requires q.graph.Valid() && Sound(q, maxEdges, k, found) && Grown(q, maxEdges, found) && i < |found|
    ensures NoDuplicates(found[i])
  {
    if i == 0 {
      ShortestAnswers(q, SOURCE, NO_CUTS, maxEdges);
    } else {
      SimplePassesOnce(q, found[i]);
    }
  }

  lemma SpurPassesOnce(q: Query, maxEdges: int, found: seq<Path>, f: Path, root: Path)
    requires q.graph.Valid() && IsRoot(q, maxEdges, f, root) && IsState(q, root[|root| - 1]) && NoDuplicates(f)
    requires Spur(q, maxEdges, found, root).Some?
    ensures Spur(q, maxEdges, found, root).value != []
    ensures NoDuplicates(Join(root, Spur(q, maxEdges, found, root).value))
  {
    var start, cuts := root[|root| - 1], CutsAt(found, root);
    var spur := Spur(q, maxEdges, found, root).value;
    var p, n := Join(root, spur), |root| - 1;
    SpurSound(q, maxEdges, found, f, root);
    ShortestAnswers(q, start, cuts, maxEdges - EdgeCount(root));
    forall i, j | 0 <= i < j < |p| ensures p[i] != p[j] {
      if j < n {
        assert p[i] == f[i] && p[j] == f[j];
      } else if i < n && j == n {
        assert p[i] == f[i] && p[j] == root[n] == f[n];
      } else if i < n {
        WalkStates(q, p, i);
        WalkStates(q, p, j);
        assert WalkAt(q, cuts, spur, j - n - 1) && p[j] == spur[j - n];
        assert root[..n][i] == p[i];
      } else {
        assert p[i] == spur[i - n] && p[j] == spur[j - n];
      }
    }
  }

  // The result of a search that reuses a definition is a path that turns back.
  lemma ReuseTurnsBack(q: Query, maxEdges: int, p: Path)
    requires q.graph.Valid() && Fits(q, maxEdges, p) && NoDuplicates(p) && !Simple(p)
    ensures !NoTurningBack(q, maxEdges)
  {
    FitsIsFitting(q, maxEdges, p);
    WalkStatesOnce(q, p);
  }

  lemma NeverReusesAt(q: Query, maxEdges: int, found: seq<Path>, f: Path, root: Path, spur: Path)
    requires q.graph.Valid() && NoTurningBack(q, maxEdges) && NoDuplicates(f)
    requires IsRoot(q, maxEdges, f, root) && IsState(q, root[|root| - 1])
    requires Spur(q, maxEdges, found, root) == Some(spur)
    ensures spur != [] && Simple(Join(root, spur))
  {
    SpurPassesOnce(q, maxEdges, found, f, root);
    SpurSound(q, maxEdges, found, f, root);
    if !Simple(Join(root, spur)) { ReuseTurnsBack(q, maxEdges, Join(root, spur)); }
  }

  lemma NeverReuses(q: Query, maxEdges: int, k: nat, found: seq<Path>)
    requires q.graph.Valid() && Sound(q, maxEdges, k, found) && Grown(q, maxEdges, found)
    requires NoTurningBack(q, maxEdges)
    ensures !Reuses(q, maxEdges, k, found)
  {
    if found != [] {
      FoundPassesOnce(q, maxEdges, k, found, 0);
      if !Simple(found[0]) { ReuseTurnsBack(q, maxEdges, found[0]); }
      forall t: nat, n: nat | 0 < t <= |found| && t <= k && 0 < n < |found[t - 1]|
        ensures !ReusesAt(q, maxEdges, found, t, n)
      {
        FoundPassesOnce(q, maxEdges, k, found, t - 1);
        var f, root := found[t - 1], found[t - 1][..n];
        if ReusesAt(q, maxEdges, found, t, n) {
          NeverReusesAt(q, maxEdges, found[..t], f, root, Spur(q, maxEdges, found[..t], root).value);
        }
      }
    }
  }

  // No relationship joins a definition with itself, as derivation guarantees.
  ghost predicate NoSelfLinks(g: PathGraph) {
    forall x: nat, e :: e in g.From(x) ==> x != e.target
  }

  // One directed edge cannot turn back, and two cannot unless the path is to end where it starts.
  lemma ShortNeverTurnsBack(q: Query, maxEdges: int)
    requires q.graph.Valid() && NoSelfLinks(q.graph) && maxEdges <= (if q.source == q.target then 1 else 2)
    ensures NoTurningBack(q, maxEdges)
  {
    forall edges: Edges | FittingEdges(q, maxEdges, edges) && StatesOnce(edges) ensures SimpleEdges(edges) {
      assert LegalAt(q, edges, 0) && LegalAt(q, edges, |edges| - 1);
      forall i: nat, j: nat | i < j < 2 * |edges| ensures Stop(edges, i) != Stop(edges, j) {
        assert edges[0].0 != edges[0].1 && edges[|edges| - 1].0 != edges[|edges| - 1].1;
      }
    }
  }
}
