// `PathGraph.k_shortest`
module KShortest {
  import opened Order
  import opened Model
  import opened PathGraphs
  import opened ZeroOneSearch
  import opened Spurs
  import opened Yen
  import opened Routes

  // What holds of the found paths in every run, cancelled or not.
  ghost predicate Sound(q: Query, maxEdges: int, k: nat, found: seq<Path>) {
    && |found| <= k + 1
    && (found != [] ==> GoodList(q, maxEdges, found) && FirstIsLeast(q, maxEdges, found))
  }

  // The best `k` legal paths, and whether there are more.
  ghost predicate Exhaustive(q: Query, maxEdges: int, k: nat, found: seq<Path>) {
    && (forall p :: p in found ==> Legal(q, maxEdges, p))
    && (forall p :: Legal(q, maxEdges, p) && p !in found ==>
          |found| == k + 1 && EdgeCount(found[k]) <= EdgeCount(p))
  }

  // The search from the root of length `n` of the `t`-th found path, made while `t` paths had been
  // found, came back with a path that uses a definition twice.
  ghost predicate ReusesAt(q: Query, maxEdges: int, found: seq<Path>, t: nat, n: nat)
    requires q.graph.Valid() && 0 < t <= |found| && 0 < n < |found[t - 1]|
  {
    var root := found[t - 1][..n];
    && IsState(q, root[n - 1])
    && var spur := Spur(q, maxEdges, found[..t], root);
    spur.Some? && !Simple(Join(root, spur.value))
  }

  // Some search made for the first `turns` found paths reuses a definition, or the first search does.
  ghost predicate Reuses(q: Query, maxEdges: int, turns: nat, found: seq<Path>)
    requires q.graph.Valid()
  {
    found != []
    && (!Simple(found[0])
        || exists t: nat, n: nat ::
               0 < t <= |found| && t <= turns && 0 < n < |found[t - 1]| && ReusesAt(q, maxEdges, found, t, n))
  }

  // `p` is what the search from the root of length `n` of the `t`-th found path came back with.
  ghost predicate ResultAt(q: Query, maxEdges: int, found: seq<Path>, p: Path, t: nat, n: nat)
    requires q.graph.Valid() && 0 < t <= |found| && 0 < n < |found[t - 1]|
  {
    var root := found[t - 1][..n];
    && IsState(q, root[n - 1])
    && var spur := Spur(q, maxEdges, found[..t], root);
    spur.Some? && p == Join(root, spur.value)
  }

  ghost predicate Resulted(q: Query, maxEdges: int, found: seq<Path>, p: Path)
    requires q.graph.Valid()
  {
    exists t: nat, n: nat :: 0 < t <= |found| && 0 < n < |found[t - 1]| && ResultAt(q, maxEdges, found, p, t, n)
  }

  // The first path is the first search's, every other one that of a search made for those before it.
  ghost predicate Grown(q: Query, maxEdges: int, found: seq<Path>)
    requires q.graph.Valid()
  {
    && (found != [] ==> Shortest(q, SOURCE, NO_CUTS, maxEdges) == Some(found[0]))
    && forall i :: 0 < i < |found| ==> Resulted(q, maxEdges, found[..i], found[i])
  }

  ghost predicate AllResulted(q: Query, maxEdges: int, found: seq<Path>, candidates: set<Path>)
    requires q.graph.Valid()
  {
    forall p :: p in candidates ==> Resulted(q, maxEdges, found, p)
  }

  // `p` uses no definition twice and is a result of a search made for one of the first `turns` found paths.
  ghost predicate Yielded(q: Query, maxEdges: int, found: seq<Path>, turns: nat, p: Path)
    requires q.graph.Valid()
  {
    && Simple(p)
    && exists t: nat, n: nat ::
         0 < t <= |found| && t <= turns && 0 < n < |found[t - 1]| && ResultAt(q, maxEdges, found, p, t, n)
  }

  // The `i`-th found path is the least of what the searches made for those before it yielded and is not
  // among them, by edge count, edge IDs, starting definitions, then states.
  ghost predicate NextIsLeast(q: Query, maxEdges: int, found: seq<Path>, i: nat)
    requires q.graph.Valid() && 0 < i < |found|
  {
    forall p :: Yielded(q, maxEdges, found, i, p) && p !in found[..i] ==>
        Leq(HeapKey(q.graph, found[i]), HeapKey(q.graph, p))
  }

  ghost predicate TakesLeast(q: Query, maxEdges: int, found: seq<Path>)
    requires q.graph.Valid()
  {
    forall i: nat {:trigger found[i]} :: 0 < i < |found| ==> NextIsLeast(q, maxEdges, found, i)
  }

  // Everything the first `turns` found paths yielded has been seen.
  ghost predicate YieldSeen(q: Query, maxEdges: int, found: seq<Path>, turns: nat, seen: set<Path>)
    requires q.graph.Valid()
  {
    forall p :: Yielded(q, maxEdges, found, turns, p) ==> p in seen
  }

  // Nothing that was yielded is left.
  ghost predicate AllTaken(q: Query, maxEdges: int, found: seq<Path>)
    requires q.graph.Valid()
  {
    forall p :: Yielded(q, maxEdges, found, |found|, p) ==> p in found
  }

  // While no search has reused a definition, everything not found costs at least as much.
  ghost predicate Beyond(q: Query, maxEdges: int, found: seq<Path>) {
    found != [] && forall p :: Legal(q, maxEdges, p) && p !in found ==> EdgeCount(found[|found| - 1]) <= EdgeCount(p)
  }

  function Definitions(p: Path): seq<int> {
    if p == [] then []
    else Definitions(p[..|p| - 1]) + (if p[|p| - 1] >= 0 then [p[|p| - 1] / 2] else [])
  }

  lemma {:induction false} DefinitionsMembers(p: Path, d: int)
    ensures d in Definitions(p) <==> exists i :: 0 <= i < |p| && p[i] >= 0 && p[i] / 2 == d
  {
    if p == [] {
    } else {
      var init := p[..|p| - 1];
      DefinitionsMembers(init, d);
      if i :| 0 <= i < |p| && p[i] >= 0 && p[i] / 2 == d {
        if i < |init| { assert init[i] == p[i]; }
      }
      if d in Definitions(init) {
        var i :| 0 <= i < |init| && init[i] >= 0 && init[i] / 2 == d;
        assert p[i] == init[i];
      }
    }
  }

  function Distinct(definitions: seq<int>): set<int> {
    set d | d in definitions
  }

  // Comparing the number of definitions with the number of distinct ones decides `Simple`.
  lemma {:induction false} SimpleByCount(p: Path)
    ensures Simple(p) <==> |Definitions(p)| == |Distinct(Definitions(p))|
    ensures |Distinct(Definitions(p))| <= |Definitions(p)|
  {
    if p == [] {
      assert Distinct([]) == {};
    } else {
      var init, s := p[..|p| - 1], p[|p| - 1];
      SimpleByCount(init);
      SimpleSnoc(init, s);
      assert p == init + [s];
      var ds := Definitions(init);
      if s >= 0 {
        DefinitionsMembers(init, s / 2);
        assert Distinct(ds + [s / 2]) == Distinct(ds) + {s / 2};
      } else {
        assert ds + [] == ds;
      }
    }
  }

  lemma SimpleSnoc(p: Path, s: State)
    ensures Simple(p + [s]) <==> Simple(p) && (s >= 0 ==> forall i :: 0 <= i < |p| && p[i] >= 0 ==> p[i] / 2 != s / 2)
  {
    var r := p + [s];
    if Simple(r) {
      forall i, j | 0 <= i < j < |p| && p[i] >= 0 && p[j] >= 0 ensures p[i] / 2 != p[j] / 2 {
        assert r[i] == p[i] && r[j] == p[j];
      }
      forall i | 0 <= i < |p| && p[i] >= 0 && s >= 0 ensures p[i] / 2 != s / 2 {
        assert r[i] == p[i] && r[|p|] == s;
      }
    }
  }

  method IsSimple(p: Path) returns (simple: bool)
    ensures simple <==> Simple(p)
  {
    SimpleByCount(p);
    var definitions := Definitions(p);
    simple := |definitions| == |Distinct(definitions)|;
  }

  // `heappop`: the least candidate by edge count, edge IDs, then states.
  method PopLeast(q: Query, candidates: set<Path>) returns (best: Path)
    requires candidates != {}
    ensures IsLeast(best, candidates, p => HeapKey(q.graph, p))
    ensures best in candidates && forall p :: p in candidates ==> EdgeCount(best) <= EdgeCount(p)
  {
    LeastExists(candidates, p => HeapKey(q.graph, p));
    best :| IsLeast(best, candidates, p => HeapKey(q.graph, p));
    forall p | p in candidates ensures EdgeCount(best) <= EdgeCount(p) {
      var a, b := HeapKey(q.graph, best), HeapKey(q.graph, p);
      assert a.items[0] == Num(EdgeCount(best)) && b.items[0] == Num(EdgeCount(p));
      FirstKeyLeq(a, b, EdgeCount(best), EdgeCount(p));
    }
  }

  // `path` is what the search from the root of the last found path that ends at position `j` gives.
  ghost predicate SpurIs(q: Query, maxEdges: int, found: seq<Path>, j: nat, path: Option<Path>)
    requires q.graph.Valid() && found != [] && j < |found[|found| - 1]|
  {
    var root := found[|found| - 1][..j + 1];
    && IsState(q, root[j])
    && var spur := Spur(q, maxEdges, found, root);
    path == if spur.None? then None else Some(Join(root, spur.value))
  }

  lemma SpurResults(q: Query, maxEdges: int, found: seq<Path>, j: nat, p: Path)
    requires q.graph.Valid() && found != [] && j + 1 < |found[|found| - 1]| && SpurIs(q, maxEdges, found, j, Some(p))
    ensures Resulted(q, maxEdges, found, p) && (!Simple(p) ==> ReusesAt(q, maxEdges, found, |found|, j + 1))
  {
    assert found[..|found|] == found;
    assert ResultAt(q, maxEdges, found, p, |found|, j + 1);
  }

  // What the search from one root yielded has been seen.
  ghost predicate RootSeen(q: Query, maxEdges: int, found: seq<Path>, n: nat, seen: set<Path>)
    requires q.graph.Valid() && found != [] && 0 < n < |found[|found| - 1]|
  {
    forall p :: Simple(p) && ResultAt(q, maxEdges, found, p, |found|, n) ==> p in seen
  }

  // What the searches from the roots of the last found path up to length `n` yielded has been seen.
  ghost predicate RootsSeen(q: Query, maxEdges: int, found: seq<Path>, n: nat, seen: set<Path>)
    requires q.graph.Valid() && found != [] && n < |found[|found| - 1]|
  {
    forall m: nat {:trigger RootSeen(q, maxEdges, found, m, seen)} :: 0 < m <= n ==>
        RootSeen(q, maxEdges, found, m, seen)
  }

  lemma RootSeenNow(q: Query, maxEdges: int, found: seq<Path>, j: nat, path: Option<Path>, seen: set<Path>)
    requires q.graph.Valid() && found != [] && j + 1 < |found[|found| - 1]| && SpurIs(q, maxEdges, found, j, path)
    requires path.Some? && Simple(path.value) ==> path.value in seen
    ensures RootSeen(q, maxEdges, found, j + 1, seen)
  {
    assert found[..|found|] == found;
  }

  lemma RootsSeenNext(q: Query, maxEdges: int, found: seq<Path>, j: nat, seen: set<Path>, seen': set<Path>)
    requires q.graph.Valid() && found != [] && j + 1 < |found[|found| - 1]| && seen <= seen'
    requires RootsSeen(q, maxEdges, found, j, seen) && RootSeen(q, maxEdges, found, j + 1, seen')
    ensures RootsSeen(q, maxEdges, found, j + 1, seen')
  {
    forall m: nat | 0 < m <= j + 1 ensures RootSeen(q, maxEdges, found, m, seen') {
      if m <= j { assert RootSeen(q, maxEdges, found, m, seen); }
    }
  }

  lemma YieldSeenAll(q: Query, maxEdges: int, found: seq<Path>, seen: set<Path>, seen': set<Path>)
    requires q.graph.Valid() && found != [] && seen <= seen' && found[|found| - 1] != []
    requires YieldSeen(q, maxEdges, found, |found| - 1, seen)
    requires RootsSeen(q, maxEdges, found, |found[|found| - 1]| - 1, seen')
    ensures YieldSeen(q, maxEdges, found, |found|, seen')
  {
    forall p | Yielded(q, maxEdges, found, |found|, p) ensures p in seen' {
      var t: nat, n: nat :| 0 < t <= |found| && 0 < n < |found[t - 1]| && ResultAt(q, maxEdges, found, p, t, n);
      if t < |found| {
        assert Yielded(q, maxEdges, found, |found| - 1, p);
      } else {
        assert RootSeen(q, maxEdges, found, n, seen');
      }
    }
  }

  lemma SpurHandled(q: Query, maxEdges: int, found: seq<Path>, j: nat, path: Option<Path>, seen: set<Path>,
                    discarded: bool)
    requires q.graph.Valid() && found != [] && j < |found[|found| - 1]| && SpurIs(q, maxEdges, found, j, path)
    requires path.None? || path.value in seen || (discarded && !Simple(path.value))
    ensures Handled(q, maxEdges, found, found[|found| - 1][..j + 1], seen, discarded)
  {}

  // The path a spur search completes its root to.
  method SpurPath(q: Query, maxEdges: int, found: seq<Path>, j: nat) returns (path: Option<Path>)
    requires q.graph.Valid() && found != [] && j + 1 < |found[|found| - 1]| && Fits(q, maxEdges, found[|found| - 1])
    ensures SpurIs(q, maxEdges, found, j, path)
  {
    var root := found[|found| - 1][..j + 1];
    RootFacts(q, maxEdges, found[|found| - 1], root);
    var spur := FindShortest(q, root[|root| - 1], CutsAt(found, root), maxEdges - EdgeCount(root));
    return if spur.None? then None else Some(Join(root, spur.value));
  }

  // Search from the root of the last found path that ends at position `j`.
  method TryRoot(q: Query, maxEdges: int, found: seq<Path>, ghost candidates0: set<Path>, ghost seen0: set<Path>,
                 ghost discarded0: bool, candidates: set<Path>, seen: set<Path>, ghost discarded: bool, j: nat)
    returns (candidates': set<Path>, seen': set<Path>, ghost discarded': bool)
    requires q.graph.Valid()
    requires During(q, maxEdges, found, candidates0, seen0, discarded0, candidates, seen, discarded, j)
    requires j < |found[|found| - 1]| - 1 && AllResulted(q, maxEdges, found, candidates)
    ensures AllResulted(q, maxEdges, found, candidates')
    ensures During(q, maxEdges, found, candidates0, seen0, discarded0, candidates', seen', discarded', j + 1)
    ensures (discarded ==> discarded') && (discarded' ==> discarded || ReusesAt(q, maxEdges, found, |found|, j + 1))
    ensures seen <= seen' && RootSeen(q, maxEdges, found, j + 1, seen')
  {
    candidates', seen', discarded' := candidates, seen, discarded;
    var path := SpurPath(q, maxEdges, found, j);
    if path.None? {
      RootSeenNow(q, maxEdges, found, j, path, seen);
      SpurHandled(q, maxEdges, found, j, path, seen, discarded);
      DuringSkip(q, maxEdges, found, candidates0, seen0, discarded0, candidates, seen, discarded, discarded, j);
      return;
    }
    var simple := IsSimple(path.value);
    SpurResults(q, maxEdges, found, j, path.value);
    if path.value in seen || !simple {
      RootSeenNow(q, maxEdges, found, j, path, seen);
      discarded' := discarded || !simple;
      SpurHandled(q, maxEdges, found, j, path, seen, discarded');
      DuringSkip(q, maxEdges, found, candidates0, seen0, discarded0, candidates, seen, discarded, discarded', j);
      return;
    }
    DuringPush(q, maxEdges, found, candidates0, seen0, discarded0, candidates, seen, discarded, j, path.value);
    seen' := seen + {path.value};
    candidates' := candidates + {path.value};
    RootSeenNow(q, maxEdges, found, j, path, seen');
  }

  // Search from every root of the last found path.
  method TrySpurs(q: Query, maxEdges: int, found: seq<Path>, candidates: set<Path>, seen: set<Path>,
                  ghost discarded: bool)
    returns (candidates': set<Path>, seen': set<Path>, ghost discarded': bool)
    requires q.graph.Valid() && Between(q, maxEdges, found, candidates, seen, discarded)
    requires AllResulted(q, maxEdges, found, candidates)
    requires YieldSeen(q, maxEdges, found, |found| - 1, seen)
    ensures AllResulted(q, maxEdges, found, candidates') && YieldSeen(q, maxEdges, found, |found|, seen')
    ensures Pool(q, maxEdges, found, candidates', seen', found)
    ensures AllHandled(q, maxEdges, found, seen', discarded') && (discarded ==> discarded')
    ensures discarded' ==>
              discarded || exists n: nat :: 0 < n < |found[|found| - 1]| && ReusesAt(q, maxEdges, found, |found|, n)
  {
    candidates', seen', discarded' := candidates, seen, discarded;
    DuringStart(q, maxEdges, found, candidates, seen, discarded);
    for j := 0 to |found[|found| - 1]| - 1
      invariant During(q, maxEdges, found, candidates, seen, discarded, candidates', seen', discarded', j)
      invariant AllResulted(q, maxEdges, found, candidates')
      invariant seen <= seen' && RootsSeen(q, maxEdges, found, j, seen')
      invariant discarded ==> discarded'
      invariant discarded' ==>
                  discarded || exists n: nat :: 0 < n < |found[|found| - 1]| && ReusesAt(q, maxEdges, found, |found|, n)
    {
      ghost var before := seen';
      candidates', seen', discarded' :=
        TryRoot(q, maxEdges, found, candidates, seen, discarded, candidates', seen', discarded', j);
      RootsSeenNext(q, maxEdges, found, j, before, seen');
    }
    YieldSeenAll(q, maxEdges, found, seen, seen');
    DuringEnd(q, maxEdges, found, candidates, seen, discarded, candidates', seen', discarded',
              |found[|found| - 1]| - 1);
  }

  lemma BeyondNext(q: Query, maxEdges: int, found: seq<Path>, candidates: set<Path>, seen: set<Path>, best: Path)
    requires q.graph.Valid() && GoodList(q, maxEdges, found) && Pool(q, maxEdges, found, candidates, seen, found)
    requires AllHandled(q, maxEdges, found, seen, false)
    requires best in candidates && forall p :: p in candidates ==> EdgeCount(best) <= EdgeCount(p)
    ensures Beyond(q, maxEdges, found + [best])
  {
    forall p | Legal(q, maxEdges, p) && p !in found + [best] ensures EdgeCount(best) <= EdgeCount(p) {
      assert p !in found;
      var c := Covered(q, maxEdges, found, candidates, seen, p);
    }
  }

  lemma NothingLeft(q: Query, maxEdges: int, found: seq<Path>, seen: set<Path>)
    requires q.graph.Valid() && GoodList(q, maxEdges, found) && Pool(q, maxEdges, found, {}, seen, found)
    requires AllHandled(q, maxEdges, found, seen, false)
    ensures forall p :: Legal(q, maxEdges, p) ==> p in found
  {
    forall p | Legal(q, maxEdges, p) ensures p in found {
      if p !in found {
        var c := Covered(q, maxEdges, found, {}, seen, p);
      }
    }
  }

  lemma WholeCost(q: Query, p: Path)
    requires WalkToTarget(q, NO_CUTS, SOURCE, p)
    ensures WalkCost(p) == EdgeCount(p)
  {
    CountSplit(p, 0);
    assert p[..1][..0] == [] && p[0..] == p;
  }

  lemma FirstStarts(q: Query, maxEdges: int, first: Path)
    requires q.graph.Valid() && Answers(q, SOURCE, NO_CUTS, maxEdges, Some(first))
    ensures Between(q, maxEdges, [first], {}, {first}, !Simple(first)) && FirstIsLeast(q, maxEdges, [first])
    ensures Beyond(q, maxEdges, [first])
  {
    WholeCost(q, first);
    forall p | Fits(q, maxEdges, p) ensures EdgeCount(first) <= EdgeCount(p) {
      WholeCost(q, p);
    }
    assert [first][..0] == [];
  }

  lemma NoneFits(q: Query, maxEdges: int, p: Path)
    requires Answers(q, SOURCE, NO_CUTS, maxEdges, None)
    ensures !Fits(q, maxEdges, p)
  {
    if WalkToTarget(q, NO_CUTS, SOURCE, p) { WholeCost(q, p); }
  }

  lemma ReusesStays(q: Query, maxEdges: int, found: seq<Path>, turns: nat, best: Path)
    requires q.graph.Valid() && Reuses(q, maxEdges, turns, found)
    ensures Reuses(q, maxEdges, turns, found + [best])
  {
    var found' := found + [best];
    if Simple(found[0]) {
      var t: nat, n: nat :|
        0 < t <= |found| && t <= turns && 0 < n < |found[t - 1]| && ReusesAt(q, maxEdges, found, t, n);
      assert found'[..t] == found[..t] && found'[t - 1] == found[t - 1];
      assert ReusesAt(q, maxEdges, found', t, n);
    }
  }

  lemma GrownNext(q: Query, maxEdges: int, found: seq<Path>, candidates: set<Path>, best: Path)
    requires q.graph.Valid() && found != [] && Grown(q, maxEdges, found) && AllResulted(q, maxEdges, found, candidates)
    requires best in candidates
    ensures Grown(q, maxEdges, found + [best]) && AllResulted(q, maxEdges, found + [best], candidates - {best})
  {
    var found' := found + [best];
    forall i | 0 < i < |found'| ensures Resulted(q, maxEdges, found'[..i], found'[i]) {
      assert found'[..i] == found[..i];
      assert i == |found| ==> found[..i] == found;
    }
    forall p | p in candidates - {best} ensures Resulted(q, maxEdges, found', p) {
      var t: nat, n: nat :| 0 < t <= |found| && 0 < n < |found[t - 1]| && ResultAt(q, maxEdges, found, p, t, n);
      assert found'[..t] == found[..t] && found'[t - 1] == found[t - 1];
      assert ResultAt(q, maxEdges, found', p, t, n);
    }
  }

  // Between two turns of the loop.
  ghost predicate AtTurn(q: Query, maxEdges: int, found: seq<Path>, candidates: set<Path>, seen: set<Path>,
                         discarded: bool)
    requires q.graph.Valid()
  {
    && Between(q, maxEdges, found, candidates, seen, discarded)
    && Grown(q, maxEdges, found) && AllResulted(q, maxEdges, found, candidates)
    && TakesLeast(q, maxEdges, found) && YieldSeen(q, maxEdges, found, |found| - 1, seen)
    && (!discarded ==> Beyond(q, maxEdges, found))
    && (discarded ==> Reuses(q, maxEdges, |found| - 1, found))
  }

  // Once there is nothing left to take.
  ghost predicate RanOut(q: Query, maxEdges: int, found: seq<Path>)
    requires q.graph.Valid()
  {
    && AllTaken(q, maxEdges, found)
    && (Reuses(q, maxEdges, |found|, found) || forall p :: Legal(q, maxEdges, p) ==> p in found)
  }

  lemma YieldedStays(q: Query, maxEdges: int, found: seq<Path>, turns: nat, best: Path, p: Path)
    requires q.graph.Valid() && turns <= |found|
    ensures Yielded(q, maxEdges, found + [best], turns, p) <==> Yielded(q, maxEdges, found, turns, p)
  {
    var found' := found + [best];
    forall t: nat, n: nat | 0 < t <= turns && 0 < n < |found[t - 1]|
      ensures found'[t - 1] == found[t - 1]
      ensures ResultAt(q, maxEdges, found', p, t, n) <==> ResultAt(q, maxEdges, found, p, t, n)
    {
      assert found'[..t] == found[..t] && found'[t - 1] == found[t - 1];
    }
  }

  // Taking the least candidate, all of what was yielded having been seen.
  lemma TakesLeastNext(q: Query, maxEdges: int, found: seq<Path>, candidates: set<Path>, seen: set<Path>, best: Path)
    requires q.graph.Valid() && found != [] && TakesLeast(q, maxEdges, found)
    requires YieldSeen(q, maxEdges, found, |found|, seen) && forall p :: p in seen <==> p in found || p in candidates
    requires IsLeast(best, candidates, p => HeapKey(q.graph, p))
    ensures TakesLeast(q, maxEdges, found + [best]) && YieldSeen(q, maxEdges, found + [best], |found|, seen)
  {
    var found' := found + [best];
    forall i: nat | 0 < i < |found'| ensures NextIsLeast(q, maxEdges, found', i) {
      assert found'[..i] == found[..i];
      forall p | Yielded(q, maxEdges, found', i, p) && p !in found'[..i]
        ensures Leq(HeapKey(q.graph, found'[i]), HeapKey(q.graph, p))
      {
        YieldedStays(q, maxEdges, found, i, best, p);
        if i < |found| {
          assert found'[i] == found[i] && NextIsLeast(q, maxEdges, found, i);
        } else {
          assert found[..i] == found && p in candidates;
        }
      }
    }
    forall p | Yielded(q, maxEdges, found', |found|, p) ensures p in seen {
      YieldedStays(q, maxEdges, found, |found|, best, p);
    }
  }

  lemma ReusesAdds(q: Query, maxEdges: int, found: seq<Path>)
    requires q.graph.Valid() && found != []
    requires Reuses(q, maxEdges, |found| - 1, found) ||
             exists n: nat :: 0 < n < |found[|found| - 1]| && ReusesAt(q, maxEdges, found, |found|, n)
    ensures Reuses(q, maxEdges, |found|, found)
  {}

  lemma TurnNext(q: Query, maxEdges: int, found: seq<Path>, candidates: set<Path>, seen: set<Path>, discarded: bool,
                 best: Path)
    requires q.graph.Valid() && GoodList(q, maxEdges, found) && FirstIsLeast(q, maxEdges, found)
    requires Grown(q, maxEdges, found)
    requires !discarded ==> Simple(found[0])
    requires Pool(q, maxEdges, found, candidates, seen, found) && AllHandled(q, maxEdges, found, seen, discarded)
    requires AllResulted(q, maxEdges, found, candidates) && (discarded ==> Reuses(q, maxEdges, |found|, found))
    requires best in candidates && forall p :: p in candidates ==> EdgeCount(best) <= EdgeCount(p)
    requires TakesLeast(q, maxEdges, found + [best]) && YieldSeen(q, maxEdges, found + [best], |found|, seen)
    ensures AtTurn(q, maxEdges, found + [best], candidates - {best}, seen, discarded)
  {
    Popped(q, maxEdges, found, candidates, seen, discarded, best);
    GrownNext(q, maxEdges, found, candidates, best);
    if discarded {
      ReusesStays(q, maxEdges, found, |found|, best);
    } else {
      BeyondNext(q, maxEdges, found, candidates, seen, best);
    }
  }

  // One turn of the loop: work off the last path, then take the cheapest candidate, if any.
  method TakeTurn(q: Query, maxEdges: int, found: seq<Path>, candidates: set<Path>, seen: set<Path>,
                  ghost discarded: bool)
    returns (best: Option<Path>, candidates': set<Path>, seen': set<Path>, ghost discarded': bool)
    requires q.graph.Valid() && AtTurn(q, maxEdges, found, candidates, seen, discarded)
    ensures best.None? ==> RanOut(q, maxEdges, found)
    ensures best.Some? ==> AtTurn(q, maxEdges, found + [best.value], candidates', seen', discarded')
  {
    candidates', seen', discarded' := TrySpurs(q, maxEdges, found, candidates, seen, discarded);
    if discarded' { ReusesAdds(q, maxEdges, found); }
    if candidates' == {} {
      if !discarded' { NothingLeft(q, maxEdges, found, seen'); }
      return None, candidates', seen', discarded';
    }
    var least := PopLeast(q, candidates');
    TakesLeastNext(q, maxEdges, found, candidates', seen', least);
    TurnNext(q, maxEdges, found, candidates', seen', discarded', least);
    return Some(least), candidates' - {least}, seen', discarded';
  }

  // What a run leaves, uncancelled: it had `k + 1` paths, or ran out.
  ghost predicate Ended(q: Query, maxEdges: int, k: nat, found: seq<Path>)
    requires q.graph.Valid()
  {
    || (|found| <= k && RanOut(q, maxEdges, found))
    || (|found| == k + 1 && (Reuses(q, maxEdges, k, found) || Beyond(q, maxEdges, found)))
  }

  lemma ReusesMore(q: Query, maxEdges: int, turns: nat, k: nat, found: seq<Path>)
    requires q.graph.Valid() && turns <= k
    ensures Reuses(q, maxEdges, turns, found) ==> Reuses(q, maxEdges, k, found)
  {}

  lemma EndedExhaustive(q: Query, maxEdges: int, k: nat, found: seq<Path>)
    requires q.graph.Valid() && Sound(q, maxEdges, k, found)
    requires Ended(q, maxEdges, k, found) && !Reuses(q, maxEdges, k, found)
    ensures Exhaustive(q, maxEdges, k, found)
  {
    if |found| <= k { ReusesMore(q, maxEdges, |found|, k, found); }
  }

  // None of the first `turns` turns is cancelled.
  ghost predicate Uncancelled(cancelled: nat -> bool, turns: nat) {
    forall turn: nat :: turn < turns ==> !cancelled(turn)
  }

  lemma UncancelledNext(cancelled: nat -> bool, turns: nat)
    requires Uncancelled(cancelled, turns) && !cancelled(turns)
    ensures Uncancelled(cancelled, turns + 1)
  {}

  // When a run stops: at the first turn that is cancelled, unless it has ended by then.
  ghost predicate StopsAt(q: Query, maxEdges: int, k: nat, found: seq<Path>, cancelled: nat -> bool)
    requires q.graph.Valid()
  {
    && (found != [] ==> Uncancelled(cancelled, |found| - 1))
    && (Ended(q, maxEdges, k, found) || (0 < |found| <= k && cancelled(|found| - 1)))
  }

  lemma FirstAtTurn(q: Query, maxEdges: int, first: Path)
    requires q.graph.Valid() && Shortest(q, SOURCE, NO_CUTS, maxEdges) == Some(first)
    ensures AtTurn(q, maxEdges, [first], {}, {first}, !Simple(first)) && Fits(q, maxEdges, first)
  {
    ShortestAnswers(q, SOURCE, NO_CUTS, maxEdges);
    FirstStarts(q, maxEdges, first);
    assert Fits(q, maxEdges, [first][0]);
  }

  // The loop, from the first path on.
  method TakeTurns(q: Query, k: nat, maxEdges: int, cancelled: nat -> bool, first: Path) returns (found: seq<Path>)
    requires q.graph.Valid() && AtTurn(q, maxEdges, [first], {}, {first}, !Simple(first))
    ensures 0 < |found| <= k + 1 && found[0] == first
    ensures GoodList(q, maxEdges, found) && FirstIsLeast(q, maxEdges, found)
    ensures Grown(q, maxEdges, found) && TakesLeast(q, maxEdges, found)
    ensures StopsAt(q, maxEdges, k, found, cancelled)
  {
    found := [first];
    var candidates: set<Path>, seen := {}, {first};
    ghost var discarded := !Simple(first);
    var turn := 0;
    while |found| <= k
      invariant 0 < |found| <= k + 1 && found[0] == first
      invariant AtTurn(q, maxEdges, found, candidates, seen, discarded)
      invariant turn == |found| - 1 && Uncancelled(cancelled, turn)
      decreases k + 1 - |found|
    {
      if cancelled(turn) {
        break;
      }
      UncancelledNext(cancelled, turn);
      turn := turn + 1;
      var best;
      best, candidates, seen, discarded := TakeTurn(q, maxEdges, found, candidates, seen, discarded);
      if best.None? {
        break;
      }
      found := found + [best.value];
    }
  }

  // The found paths.  `cancelled` answers the cancellation callback turn by turn.
  method FindPaths(q: Query, k: nat, maxEdges: int, cancelled: nat -> bool) returns (found: seq<Path>)
    requires q.graph.Valid()
    ensures Sound(q, maxEdges, k, found) && Grown(q, maxEdges, found)
    ensures TakesLeast(q, maxEdges, found) && StopsAt(q, maxEdges, k, found, cancelled)
    ensures found == [] <==> forall p :: !Fits(q, maxEdges, p)
  {
    var first := FindShortest(q, SOURCE, NO_CUTS, maxEdges);
    if first.None? {
      forall p ensures !Fits(q, maxEdges, p) {
        NoneFits(q, maxEdges, p);
      }
      return [];
    }
    FirstAtTurn(q, maxEdges, first.value);
    found := TakeTurns(q, k, maxEdges, cancelled, first.value);
  }
}
