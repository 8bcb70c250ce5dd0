// The k shortest paths: what the growing list of found paths keeps (`PathGraph.k_shortest`).
module Yen {
  import opened Order
  import opened Model
  import opened PathGraphs
  import opened ZeroOneSearch
  import opened Spurs

  // The search from `root` has been made: it found nothing, or a path already seen, or, once paths
  // have been discarded, one that reuses a definition.
  ghost predicate Handled(q: Query, maxEdges: int, found: seq<Path>, root: Path, seen: set<Path>, discarded: bool)
    requires q.graph.Valid()
  {
    && root != [] && IsState(q, root[|root| - 1])
    && match Spur(q, maxEdges, found, root)
       case None => true
       case Some(spur) => Join(root, spur) in seen || (discarded && !Simple(Join(root, spur)))
  }

  // All roots of `f` up to length `n` have been handled.
  ghost predicate HandledUpTo(q: Query, maxEdges: int, found: seq<Path>, f: Path, n: nat, seen: set<Path>,
                              discarded: bool)
    requires q.graph.Valid() && n <= |f|
  {
    forall i {:trigger f[..i]} :: 0 < i <= n ==> Handled(q, maxEdges, found, f[..i], seen, discarded)
  }

  ghost predicate AllHandled(q: Query, maxEdges: int, found: seq<Path>, seen: set<Path>, discarded: bool)
    requires q.graph.Valid()
  {
    forall f {:trigger f in found} :: f in found ==>
        f != [] && HandledUpTo(q, maxEdges, found, f, |f| - 1, seen, discarded)
  }

  // `p` was the cheapest continuation of a root of some path of `base`, among those leaving the
  // root otherwise than by `removed`.
  ghost predicate BornAt(q: Query, maxEdges: int, p: Path, base: seq<Path>, n: nat, removed: set<(State, State)>) {
    && 0 < n < |p|
    && (exists g :: g in base && IsRoot(q, maxEdges, g, p[..n]))
    && removed <= Removed(base, p[..n]) && (p[n - 1], p[n]) !in removed
    && forall other ::
           Legal(q, maxEdges, other) && IsRoot(q, maxEdges, other, p[..n]) && (p[n - 1], other[n]) !in removed ==>
         EdgeCount(p) <= EdgeCount(other)
  }

  ghost predicate Born(q: Query, maxEdges: int, p: Path, base: seq<Path>) {
    exists n: nat, removed :: BornAt(q, maxEdges, p, base, n, removed)
  }

  // Lists of paths of the graph, cheapest first; only the first may reuse a definition.
  ghost predicate GoodList(q: Query, maxEdges: int, found: seq<Path>) {
    && found != [] && NoDuplicates(found)
    && (forall i :: 0 <= i < |found| ==> Fits(q, maxEdges, found[i]) && (i > 0 ==> Simple(found[i])))
    && (forall i, j :: 0 <= i < j < |found| ==> EdgeCount(found[i]) <= EdgeCount(found[j]))
  }

  // The first path is the cheapest of all.
  ghost predicate FirstIsLeast(q: Query, maxEdges: int, found: seq<Path>) {
    found != [] && forall p :: Fits(q, maxEdges, p) ==> EdgeCount(found[0]) <= EdgeCount(p)
  }

  ghost predicate Pool(q: Query, maxEdges: int, found: seq<Path>, candidates: set<Path>, seen: set<Path>,
                       base: seq<Path>) {
    && found != []
    && (forall p :: p in seen <==> p in found || p in candidates)
    && (forall p :: p in candidates ==>
          && p !in found && Legal(q, maxEdges, p) && Born(q, maxEdges, p, base)
          && EdgeCount(found[|found| - 1]) <= EdgeCount(p))
  }

  // Between two turns of the loop: every path but the last has been worked off.
  ghost predicate Between(q: Query, maxEdges: int, found: seq<Path>, candidates: set<Path>, seen: set<Path>,
                          discarded: bool)
    requires q.graph.Valid()
  {
    && GoodList(q, maxEdges, found) && FirstIsLeast(q, maxEdges, found)
    && (!discarded ==> Simple(found[0]))
    && var base := found[..|found| - 1];
    && Pool(q, maxEdges, found, candidates, seen, base)
    && AllHandled(q, maxEdges, base, seen, discarded)
    && (|found| > 1 ==> Born(q, maxEdges, found[|found| - 1], base))
  }

  // ---------- growing what is removed and seen ----------

  lemma RemovedGrows(base: seq<Path>, last: Path, root: Path)
    requires root != []
    ensures Removed(base, root) <= Removed(base + [last], root)
    ensures !(|last| > |root| && last[..|root|] == root) ==> Removed(base + [last], root) == Removed(base, root)
    ensures (exists g :: g in base && |g| > |root| && |last| > |root| && g[..|root| + 1] == last[..|root| + 1])
              ==> Removed(base + [last], root) == Removed(base, root)
  {
    assert forall f :: f in base + [last] <==> f in base || f == last;
    if g :| g in base && |g| > |root| && |last| > |root| && g[..|root| + 1] == last[..|root| + 1] {
      assert g[|root|] == g[..|root| + 1][|root|] && last[|root|] == last[..|root| + 1][|root|];
      assert g[|root| - 1] == g[..|root| + 1][|root| - 1] && last[|root| - 1] == last[..|root| + 1][|root| - 1];
      assert g[..|root|] == g[..|root| + 1][..|root|] && last[..|root|] == last[..|root| + 1][..|root|];
    }
  }

  lemma SpurSame(q: Query, maxEdges: int, base: seq<Path>, found: seq<Path>, root: Path)
    requires q.graph.Valid() && root != [] && IsState(q, root[|root| - 1])
    requires Removed(base, root) == Removed(found, root)
    ensures Spur(q, maxEdges, base, root) == Spur(q, maxEdges, found, root)
  {}

  lemma HandledStays(q: Query, maxEdges: int, base: seq<Path>, found: seq<Path>, root: Path, seen: set<Path>,
                     seen': set<Path>, discarded: bool, discarded': bool)
    requires q.graph.Valid() && Handled(q, maxEdges, base, root, seen, discarded)
    requires Removed(base, root) == Removed(found, root) && seen <= seen' && (discarded ==> discarded')
    ensures Handled(q, maxEdges, found, root, seen', discarded')
  {
    SpurSame(q, maxEdges, base, found, root);
  }

  lemma BornStays(q: Query, maxEdges: int, p: Path, base: seq<Path>, last: Path)
    requires Born(q, maxEdges, p, base)
    ensures Born(q, maxEdges, p, base + [last])
  {
    var n: nat, removed :| BornAt(q, maxEdges, p, base, n, removed);
    RemovedGrows(base, last, p[..n]);
    var g :| g in base && IsRoot(q, maxEdges, g, p[..n]);
    assert g in base + [last];
    assert BornAt(q, maxEdges, p, base + [last], n, removed);
  }

  // ---------- a new candidate ----------

  lemma NewBorn(q: Query, maxEdges: int, found: seq<Path>, f: Path, root: Path)
    requires q.graph.Valid() && f in found && IsRoot(q, maxEdges, f, root) && IsState(q, root[|root| - 1])
    requires Spur(q, maxEdges, found, root).Some?
    ensures Spur(q, maxEdges, found, root).value != []
    ensures Born(q, maxEdges, Join(root, Spur(q, maxEdges, found, root).value), found)
  {
    var spur := Spur(q, maxEdges, found, root).value;
    SpurSound(q, maxEdges, found, f, root);
    JoinFacts(root, spur);
    var p, n, removed := Join(root, spur), |root|, Removed(found, root);
    forall other | Legal(q, maxEdges, other) && IsRoot(q, maxEdges, other, p[..n]) && (p[n - 1], other[n]) !in removed
      ensures EdgeCount(p) <= EdgeCount(other)
    {
      SpurBest(q, maxEdges, found, other, root);
    }
    assert BornAt(q, maxEdges, p, found, n, removed);
  }

  // A path that a root of the last path gives, unseen, costs no less than the last path.
  lemma BornLater(q: Query, maxEdges: int, base: seq<Path>, last: Path, seen: set<Path>, discarded: bool, n: nat,
                  p: Path)
    requires q.graph.Valid() && AllHandled(q, maxEdges, base, seen, discarded) && Born(q, maxEdges, last, base)
    requires 0 < n < |last| && Legal(q, maxEdges, p) && IsRoot(q, maxEdges, p, last[..n])
    requires (last[n - 1], p[n]) !in Removed(base + [last], last[..n])
    requires !Handled(q, maxEdges, base + [last], last[..n], seen, discarded)
    ensures EdgeCount(last) <= EdgeCount(p)
  {
    var m: nat, removed :| BornAt(q, maxEdges, last, base, m, removed);
    if n < m {
      SharedUnchanged(q, maxEdges, base, last, m, n, seen, discarded);
    } else {
      LaterNotCheaper(q, maxEdges, base, last, m, removed, n, p);
    }
  }

  lemma UnseenNotHandled(q: Query, maxEdges: int, found: seq<Path>, root: Path, spur: Path, seen: set<Path>,
                         discarded: bool)
    requires q.graph.Valid() && root != [] && IsState(q, root[|root| - 1])
    requires Spur(q, maxEdges, found, root) == Some(spur) && Join(root, spur) !in seen && Simple(Join(root, spur))
    ensures !Handled(q, maxEdges, found, root, seen, discarded)
  {}

  // A spur of the last path that has not been seen costs no less than that path.
  lemma NewNotCheaper(q: Query, maxEdges: int, found: seq<Path>, candidates: set<Path>, seen: set<Path>,
                      seen': set<Path>, discarded: bool, n: nat, last: Path, root: Path, spur: Path)
    requires q.graph.Valid() && Between(q, maxEdges, found, candidates, seen, discarded) && seen <= seen'
    requires last == found[|found| - 1] && 0 < n < |last| && root == last[..n]
    requires IsState(q, root[n - 1]) && Spur(q, maxEdges, found, root) == Some(spur)
    requires Join(root, spur) !in seen' && Simple(Join(root, spur))
    ensures EdgeCount(last) <= EdgeCount(Join(root, spur))
  {
    var base := found[..|found| - 1];
    LastApart(found);
    assert last in found;
    SpurSound(q, maxEdges, found, last, root);
    if |found| > 1 {
      UnseenNotHandled(q, maxEdges, found, root, spur, seen, discarded);
      BornLater(q, maxEdges, base, last, seen, discarded, n, Join(root, spur));
    }
  }

  lemma SlicePrefix(p: Path, m: nat, n: nat)
    requires n <= m <= |p|
    ensures p[..m][..n] == p[..n]
  {}

  // Before its birth root the last path runs along an earlier one: nothing new is removed there.
  lemma SharedUnchanged(q: Query, maxEdges: int, base: seq<Path>, last: Path, m: nat, n: nat, seen: set<Path>,
                        discarded: bool)
    requires q.graph.Valid() && 0 < n < m < |last| && exists g :: g in base && IsRoot(q, maxEdges, g, last[..m])
    requires AllHandled(q, maxEdges, base, seen, discarded)
    ensures Handled(q, maxEdges, base + [last], last[..n], seen, discarded)
  {
    var g :| g in base && IsRoot(q, maxEdges, g, last[..m]);
    SlicePrefix(g, m, n + 1);
    SlicePrefix(last, m, n + 1);
    SlicePrefix(g, m, n);
    SlicePrefix(last, m, n);
    assert Handled(q, maxEdges, base, g[..n], seen, discarded);
    StillHandled(q, maxEdges, base, last, g, last[..n], seen, discarded);
  }

  lemma StillHandled(q: Query, maxEdges: int, base: seq<Path>, last: Path, g: Path, root: Path, seen: set<Path>,
                     discarded: bool)
    requires q.graph.Valid() && Handled(q, maxEdges, base, root, seen, discarded)
    requires g in base && |g| > |root| && |last| > |root| && g[..|root| + 1] == last[..|root| + 1]
    ensures Handled(q, maxEdges, base + [last], root, seen, discarded)
  {
    RemovedGrows(base, last, root);
    HandledStays(q, maxEdges, base, base + [last], root, seen, seen, discarded, discarded);
  }

  // From its birth root on, its continuations compete with the last path itself.
  lemma LaterNotCheaper(q: Query, maxEdges: int, base: seq<Path>, last: Path, m: nat, removed: set<(State, State)>,
                        n: nat, p: Path)
    requires BornAt(q, maxEdges, last, base, m, removed) && m <= n < |last|
    requires Legal(q, maxEdges, p) && IsRoot(q, maxEdges, p, last[..n])
    requires (last[n - 1], p[n]) !in Removed(base + [last], last[..n])
    ensures EdgeCount(last) <= EdgeCount(p)
  {
    PrefixOfPrefix(p, last, m, n);
    NotRemoved(q, maxEdges, base, last, m, removed, n, p);
    assert IsRoot(q, maxEdges, p, last[..m]);
  }

  lemma NotRemoved(q: Query, maxEdges: int, base: seq<Path>, last: Path, m: nat, removed: set<(State, State)>, n: nat,
                   p: Path)
    requires 0 < m <= n < |last| && n < |p| && removed <= Removed(base, last[..m]) && (last[m - 1], last[m]) !in removed
    requires n > m ==> p[m] == last[m]
    requires (last[n - 1], p[n]) !in Removed(base + [last], last[..n])
    ensures (last[m - 1], p[m]) !in removed
  {
    if n == m { RemovedGrows(base, last, last[..m]); }
  }

  lemma PrefixOfPrefix(p: Path, last: Path, m: nat, n: nat)
    requires m <= n <= |p| && n <= |last| && p[..n] == last[..n]
    ensures p[..m] == last[..m] && forall i :: 0 <= i < n ==> p[i] == last[i]
  {
    assert p[..m] == p[..n][..m] && last[..m] == last[..n][..m];
    forall i | 0 <= i < n ensures p[i] == last[i] {
      assert p[..n][i] == last[..n][i];
    }
  }

  // ---------- working off the last path ----------

  // Roots of the last path up to length `n` handled, starting from what held between two turns.
  ghost predicate During(q: Query, maxEdges: int, found: seq<Path>, candidates0: set<Path>, seen0: set<Path>,
                         discarded0: bool, candidates: set<Path>, seen: set<Path>, discarded: bool, n: nat)
    requires q.graph.Valid()
  {
    && Between(q, maxEdges, found, candidates0, seen0, discarded0)
    && seen0 <= seen && (discarded0 ==> discarded)
    && Pool(q, maxEdges, found, candidates, seen, found)
    && n < |found[|found| - 1]|
    && HandledUpTo(q, maxEdges, found, found[|found| - 1], n, seen, discarded)
  }

  lemma DuringStart(q: Query, maxEdges: int, found: seq<Path>, candidates: set<Path>, seen: set<Path>, discarded: bool)
    requires q.graph.Valid() && Between(q, maxEdges, found, candidates, seen, discarded)
    ensures During(q, maxEdges, found, candidates, seen, discarded, candidates, seen, discarded, 0)
  {
    PoolGrows(q, maxEdges, found, candidates, seen);
  }

  lemma PoolGrows(q: Query, maxEdges: int, found: seq<Path>, candidates: set<Path>, seen: set<Path>)
    requires found != [] && Pool(q, maxEdges, found, candidates, seen, found[..|found| - 1])
    ensures Pool(q, maxEdges, found, candidates, seen, found)
  {
    var base, last := found[..|found| - 1], found[|found| - 1];
    assert found == base + [last];
    forall p | p in candidates ensures Born(q, maxEdges, p, found) {
      BornStays(q, maxEdges, p, base, last);
    }
  }

  lemma PoolAdds(q: Query, maxEdges: int, found: seq<Path>, candidates: set<Path>, seen: set<Path>, p: Path)
    requires Pool(q, maxEdges, found, candidates, seen, found) && p !in seen
    requires Legal(q, maxEdges, p) && Born(q, maxEdges, p, found) && EdgeCount(found[|found| - 1]) <= EdgeCount(p)
    ensures Pool(q, maxEdges, found, candidates + {p}, seen + {p}, found)
  {}

  lemma HandledNext(q: Query, maxEdges: int, found: seq<Path>, f: Path, n: nat, seen: set<Path>, seen': set<Path>,
                    discarded: bool, discarded': bool)
    requires q.graph.Valid() && n < |f| && HandledUpTo(q, maxEdges, found, f, n, seen, discarded)
    requires seen <= seen' && (discarded ==> discarded')
    requires Handled(q, maxEdges, found, f[..n + 1], seen', discarded')
    ensures HandledUpTo(q, maxEdges, found, f, n + 1, seen', discarded')
  {
    forall i | 0 < i <= n + 1 ensures Handled(q, maxEdges, found, f[..i], seen', discarded') {
      if i <= n {
        HandledStays(q, maxEdges, found, found, f[..i], seen, seen', discarded, discarded');
      }
    }
  }

  // The next root has been searched without finding a new path.
  lemma DuringSkip(q: Query, maxEdges: int, found: seq<Path>, candidates0: set<Path>, seen0: set<Path>,
                   discarded0: bool, candidates: set<Path>, seen: set<Path>, discarded: bool, discarded': bool, n: nat)
    requires q.graph.Valid()
    requires During(q, maxEdges, found, candidates0, seen0, discarded0, candidates, seen, discarded, n)
    requires n + 1 < |found[|found| - 1]| && (discarded ==> discarded')
    requires Handled(q, maxEdges, found, found[|found| - 1][..n + 1], seen, discarded')
    ensures During(q, maxEdges, found, candidates0, seen0, discarded0, candidates, seen, discarded', n + 1)
  {
    HandledNext(q, maxEdges, found, found[|found| - 1], n, seen, seen, discarded, discarded');
  }

  // The next root has given a path that is legal and has not been seen.
  lemma NewCandidate(q: Query, maxEdges: int, found: seq<Path>, candidates: set<Path>, seen: set<Path>,
                     seen': set<Path>, discarded: bool, n: nat, last: Path, root: Path, spur: Path)
    requires q.graph.Valid() && Between(q, maxEdges, found, candidates, seen, discarded) && seen <= seen'
    requires last == found[|found| - 1] && 0 < n < |last| && root == last[..n]
    requires IsState(q, root[n - 1]) && Spur(q, maxEdges, found, root) == Some(spur)
    requires Join(root, spur) !in seen' && Simple(Join(root, spur))
    ensures Legal(q, maxEdges, Join(root, spur)) && Born(q, maxEdges, Join(root, spur), found)
    ensures EdgeCount(last) <= EdgeCount(Join(root, spur))
  {
    assert last in found && IsRoot(q, maxEdges, last, root);
    SpurSound(q, maxEdges, found, last, root);
    NewBorn(q, maxEdges, found, last, root);
    NewNotCheaper(q, maxEdges, found, candidates, seen, seen', discarded, n, last, root, spur);
  }

  lemma DuringPush(q: Query, maxEdges: int, found: seq<Path>, candidates0: set<Path>, seen0: set<Path>,
                   discarded0: bool, candidates: set<Path>, seen: set<Path>, discarded: bool, n: nat, p: Path)
    requires q.graph.Valid()
    requires During(q, maxEdges, found, candidates0, seen0, discarded0, candidates, seen, discarded, n)
    requires n + 1 < |found[|found| - 1]| && IsState(q, found[|found| - 1][n])
    requires var root := found[|found| - 1][..n + 1];
             && Spur(q, maxEdges, found, root).Some? && p == Join(root, Spur(q, maxEdges, found, root).value)
    requires p !in seen && Simple(p)
    ensures During(q, maxEdges, found, candidates0, seen0, discarded0, candidates + {p}, seen + {p}, discarded, n + 1)
  {
    var last := found[|found| - 1];
    var root := last[..n + 1];
    var spur := Spur(q, maxEdges, found, root).value;
    NewCandidate(q, maxEdges, found, candidates0, seen0, seen, discarded0, n + 1, last, root, spur);
    PoolAdds(q, maxEdges, found, candidates, seen, p);
    HandledNext(q, maxEdges, found, last, n, seen, seen + {p}, discarded, discarded);
  }

  // All roots of the last path done, every search of every found path is accounted for.
  lemma DuringEnd(q: Query, maxEdges: int, found: seq<Path>, candidates0: set<Path>, seen0: set<Path>, discarded0: bool,
                  candidates: set<Path>, seen: set<Path>, discarded: bool, n: nat)
    requires q.graph.Valid()
    requires During(q, maxEdges, found, candidates0, seen0, discarded0, candidates, seen, discarded, n)
    requires n == |found[|found| - 1]| - 1
    ensures AllHandled(q, maxEdges, found, seen, discarded)
  {
    var base, last := found[..|found| - 1], found[|found| - 1];
    assert found == base + [last];
    forall f | f in found ensures f != [] && HandledUpTo(q, maxEdges, found, f, |f| - 1, seen, discarded) {
      if f != last {
        assert f in base;
        forall i | 0 < i <= |f| - 1 ensures Handled(q, maxEdges, found, f[..i], seen, discarded) {
          assert Handled(q, maxEdges, base, f[..i], seen0, discarded0);
          if |last| > i && last[..i] == f[..i] {
            assert Handled(q, maxEdges, found, last[..i], seen, discarded);
          } else {
            RemovedGrows(base, last, f[..i]);
            HandledStays(q, maxEdges, base, found, f[..i], seen0, seen, discarded0, discarded);
          }
        }
      }
    }
  }

  lemma GoodNext(q: Query, maxEdges: int, found: seq<Path>, best: Path)
    requires GoodList(q, maxEdges, found) && FirstIsLeast(q, maxEdges, found)
    requires Legal(q, maxEdges, best) && best !in found && EdgeCount(found[|found| - 1]) <= EdgeCount(best)
    ensures GoodList(q, maxEdges, found + [best]) && FirstIsLeast(q, maxEdges, found + [best])
  {
    var more := found + [best];
    forall i, j | 0 <= i < j < |more| ensures EdgeCount(more[i]) <= EdgeCount(more[j]) {
      assert i < |found| - 1 ==> EdgeCount(found[i]) <= EdgeCount(found[|found| - 1]);
    }
  }

  lemma PoolNext(q: Query, maxEdges: int, found: seq<Path>, candidates: set<Path>, seen: set<Path>, best: Path)
    requires Pool(q, maxEdges, found, candidates, seen, found)
    requires best in candidates && forall p :: p in candidates ==> EdgeCount(best) <= EdgeCount(p)
    ensures Pool(q, maxEdges, found + [best], candidates - {best}, seen, found)
  {
    assert forall p :: p in found + [best] <==> p in found || p == best;
    assert (found + [best])[|found + [best]| - 1] == best;
  }

  // Taking the cheapest candidate starts the next turn.
  lemma Popped(q: Query, maxEdges: int, found: seq<Path>, candidates: set<Path>, seen: set<Path>, discarded: bool,
               best: Path)
    requires q.graph.Valid() && GoodList(q, maxEdges, found) && FirstIsLeast(q, maxEdges, found)
    requires !discarded ==> Simple(found[0])
    requires Pool(q, maxEdges, found, candidates, seen, found) && AllHandled(q, maxEdges, found, seen, discarded)
    requires best in candidates && forall p :: p in candidates ==> EdgeCount(best) <= EdgeCount(p)
    ensures Between(q, maxEdges, found + [best], candidates - {best}, seen, discarded)
  {
    GoodNext(q, maxEdges, found, best);
    PoolNext(q, maxEdges, found, candidates, seen, best);
    assert (found + [best])[..|found|] == found;
  }

  // ---------- nothing is missed when nothing was discarded ----------

  // The longest beginning `p` shares with a found path.
  lemma Deviates(q: Query, maxEdges: int, found: seq<Path>, p: Path) returns (f: Path, n: nat)
    requires q.graph.Valid() && GoodList(q, maxEdges, found) && Legal(q, maxEdges, p) && p !in found
    ensures f in found && 0 < n < |p| && n < |f| && f[..n] == p[..n]
    ensures (p[n - 1], p[n]) !in Removed(found, p[..n])
  {
    f, n := found[0], 1;
    WalkStates(q, p, 0);
    WalkStates(q, f, 0);
    while (p[n - 1], p[n]) in Removed(found, p[..n])
      invariant f in found && Fits(q, maxEdges, f) && 0 < n < |p| && n < |f| && f[..n] == p[..n]
      decreases |p| - n
    {
      var g :| g in found && |g| > n && g[..n] == p[..n] && (g[n - 1], g[n]) == (p[n - 1], p[n]);
      var i :| 0 <= i < |found| && found[i] == g;
      f, n := g, n + 1;
      SharedLonger(q, maxEdges, f, p, n);
    }
  }

  lemma SharedLonger(q: Query, maxEdges: int, f: Path, p: Path, n: nat)
    requires q.graph.Valid() && Fits(q, maxEdges, f) && Fits(q, maxEdges, p) && f != p
    requires 0 < n <= |f| && n <= |p| && f[..n - 1] == p[..n - 1] && f[n - 1] == p[n - 1]
    ensures n < |f| && n < |p| && f[..n] == p[..n]
  {
    assert f[..n] == f[..n - 1] + [f[n - 1]] && p[..n] == p[..n - 1] + [p[n - 1]];
    WalkStates(q, f, n - 1);
    WalkStates(q, p, n - 1);
    assert n == |f| && n == |p| ==> f == p;
  }

  // Every legal path not found yet costs at least as much as some candidate.
  lemma Covered(q: Query, maxEdges: int, found: seq<Path>, candidates: set<Path>, seen: set<Path>, p: Path)
    returns (c: Path)
    requires q.graph.Valid() && GoodList(q, maxEdges, found) && Pool(q, maxEdges, found, candidates, seen, found)
    requires AllHandled(q, maxEdges, found, seen, false) && Legal(q, maxEdges, p) && p !in found
    ensures c in candidates && EdgeCount(c) <= EdgeCount(p)
  {
    var f, n := Deviates(q, maxEdges, found, p);
    var root := p[..n];
    assert Handled(q, maxEdges, found, f[..n], seen, false);
    assert IsRoot(q, maxEdges, p, root) && IsState(q, root[|root| - 1]);
    SpurBest(q, maxEdges, found, p, root);
    SpurSound(q, maxEdges, found, p, root);
    var spur := Spur(q, maxEdges, found, root).value;
    JoinFacts(root, spur);
    c := Join(root, spur);
    NotFound(found, c, n);
  }

  lemma NotFound(found: seq<Path>, c: Path, n: nat)
    requires 0 < n < |c| && (c[n - 1], c[n]) !in Removed(found, c[..n])
    ensures c !in found
  {}
}
