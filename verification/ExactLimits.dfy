// Up to how many directed edges every answer on derived relationships is the k shortest legal paths,
// and up to how many no answer reuses a definition.
module ExactLimits {
  import opened PathGraphs
  import opened Spurs
  import opened Routes
  import opened FirstPath
  import opened DerivedGraph
  import opened KShortest
  import opened EdgePaths
  import opened Exactness
  import opened RankedPaths
  import opened FirstPathLimits
  import opened YenLimits

  // A request on a derived graph, for paths back to the same dataset or not, perhaps filtered.
  ghost predicate DerivedRequest(q: Query, same: bool, filtered: bool) {
    && (exists nodes :: DerivedFrom(q.graph, nodes))
    && (q.source == q.target <==> same) && (filtered || q.allowed.None?)
  }

  lemma DerivedRequestValid(q: Query, same: bool, filtered: bool)
    requires DerivedRequest(q, same, filtered)
    ensures q.graph.Valid() && NoSelfLinks(q.graph)
  {
    var nodes :| DerivedFrom(q.graph, nodes);
    DerivedJoinsIdentities(q.graph, nodes);
  }

  // An uncancelled run for `q`.
  ghost predicate MayReturn(q: Query, maxEdges: int, k: nat, found: seq<Path>, paths: seq<Edges>, more: bool) {
    q.graph.Valid() && Returns(q, maxEdges, k, found, paths, more) && Ended(q, maxEdges, k, found)
  }

  // With this limit, every uncancelled run for such a request returns the k shortest legal paths.
  ghost predicate ExactUpTo(same: bool, filtered: bool, maxEdges: int) {
    forall q, k, found, paths, more ::
      DerivedRequest(q, same, filtered) && MayReturn(q, maxEdges, k, found, paths, more) ==>
        Ranked(q, maxEdges, k, paths, more)
  }

  // Under any filter, a limit of two directed edges is safe between different datasets, and of one
  // within a dataset.
  lemma ShortIsExact(same: bool, maxEdges: int)
    requires maxEdges <= if same then 1 else 2
    ensures ExactUpTo(same, true, maxEdges)
  {
    forall q, k, found, paths, more | DerivedRequest(q, same, true) && MayReturn(q, maxEdges, k, found, paths, more)
      ensures Ranked(q, maxEdges, k, paths, more)
    {
      DerivedRequestValid(q, same, true);
      ShortNeverTurnsBack(q, maxEdges);
      RankedUnlessTurningBack(q, maxEdges, k, found, paths, more);
    }
  }

  // One more is not, even without a filter: the maze and the triangle are counterexamples.
  method IsExactUpTo(same: bool, maxEdges: int) returns (exact: bool)
    ensures exact == (maxEdges <= if same then 1 else 2)
    ensures exact ==> ExactUpTo(same, true, maxEdges)
    ensures !exact ==> !ExactUpTo(same, false, maxEdges)
  {
    exact := maxEdges <= if same then 1 else 2;
    if exact {
      ShortIsExact(same, maxEdges);
      return;
    }
    var q, paths, more;
    ghost var found;
    if same {
      q, paths, more, found := ReuseWithinDataset(maxEdges, 1);
    } else {
      q, paths, more, found := MissLegalPath(maxEdges, 1);
    }
    assert DerivedRequest(q, same, false) && MayReturn(q, maxEdges, 1, found, paths, more);
  }

  // ---------- reuse ----------

  // With this limit, no run for such a request, cancelled or not, returns a path that reuses a definition.
  ghost predicate NeverReusedUpTo(same: bool, filtered: bool, maxEdges: int) {
    forall q, k, found, paths, more ::
      DerivedRequest(q, same, filtered) && q.graph.Valid() && Returns(q, maxEdges, k, found, paths, more) ==>
        AllLegal(q, maxEdges, paths)
  }

  ghost predicate AllLegal(q: Query, maxEdges: int, paths: seq<Edges>) {
    forall p :: p in paths ==> LegalPath(q, maxEdges, p)
  }

  // A returned path reuses a definition only if it is a shortest one.
  lemma ReturnedReuse(q: Query, maxEdges: int, k: nat, found: seq<Path>, paths: seq<Edges>, more: bool, p: Edges)
    requires q.graph.Valid() && Returns(q, maxEdges, k, found, paths, more) && p in paths
    ensures FittingEdges(q, maxEdges, p) && found != []
    ensures !SimpleEdges(p) ==> !Simple(found[0]) && forall r :: FittingEdges(q, maxEdges, r) ==> |p| <= |r|
  {
    var shown :| Shows(q, k, found, shown) && paths == EdgesOfPaths(shown);
    ReturnedExactly(q, maxEdges, k, found, paths, more, p);
    ReuseOfShown(q, maxEdges, k, found, shown);
    FittingFits(q, maxEdges, p);
    var i :| 0 <= i < |found| && found[i] == Route(p);
    FitsIsFitting(q, maxEdges, found[i]);
  }

  lemma ShortNeverReused(same: bool, maxEdges: int)
    requires maxEdges <= if same then 1 else 2
    ensures NeverReusedUpTo(same, true, maxEdges)
  {
    forall q, k, found, paths, more |
      DerivedRequest(q, same, true) && q.graph.Valid() && Returns(q, maxEdges, k, found, paths, more)
      ensures AllLegal(q, maxEdges, paths)
    {
      DerivedRequestValid(q, same, true);
      ShortNeverTurnsBack(q, maxEdges);
      NeverReuses(q, maxEdges, k, found);
      forall p | p in paths ensures LegalPath(q, maxEdges, p) {
        ReturnedReuse(q, maxEdges, k, found, paths, more, p);
      }
    }
  }

  // Unfiltered and between different datasets, no limit is needed.
  lemma PlainNeverReused(maxEdges: int)
    ensures NeverReusedUpTo(false, false, maxEdges)
  {
    forall q, k, found, paths, more |
      DerivedRequest(q, false, false) && q.graph.Valid() && Returns(q, maxEdges, k, found, paths, more)
      ensures AllLegal(q, maxEdges, paths)
    {
      var nodes :| DerivedFrom(q.graph, nodes);
      DerivedJoinsIdentities(q.graph, nodes);
      forall p | p in paths ensures LegalPath(q, maxEdges, p) {
        ReturnedReuse(q, maxEdges, k, found, paths, more, p);
        if !SimpleEdges(p) { CheapestIsSimple(q, maxEdges, p); }
      }
    }
  }

  lemma FewerRequests(same: bool, maxEdges: int)
    ensures NeverReusedUpTo(same, true, maxEdges) ==> NeverReusedUpTo(same, false, maxEdges)
  {
    forall q | DerivedRequest(q, same, false) ensures DerivedRequest(q, same, true) {}
  }

  lemma ReuseRefutes(q: Query, same: bool, filtered: bool, maxEdges: int, k: nat, found: seq<Path>,
                     paths: seq<Edges>, more: bool)
    requires DerivedRequest(q, same, filtered) && q.graph.Valid() && Returns(q, maxEdges, k, found, paths, more)
    requires paths != [] && forall p :: p in paths ==> !SimpleEdges(p)
    ensures !NeverReusedUpTo(same, filtered, maxEdges)
  {
    assert paths[0] in paths && !LegalPath(q, maxEdges, paths[0]);
    assert !AllLegal(q, maxEdges, paths);
  }

  // Exactly these requests are safe at this limit: unfiltered ones between different datasets at any, all
  // between different datasets up to two directed edges, all within a dataset up to one.
  method IsNeverReusedUpTo(same: bool, filtered: bool, maxEdges: int) returns (never: bool)
    ensures never == ((!same && !filtered) || maxEdges <= if same then 1 else 2)
    ensures never <==> NeverReusedUpTo(same, filtered, maxEdges)
  {
    never := (!same && !filtered) || maxEdges <= if same then 1 else 2;
    if never {
      if !same && !filtered {
        PlainNeverReused(maxEdges);
      } else {
        ShortNeverReused(same, maxEdges);
        FewerRequests(same, maxEdges);
      }
      return;
    }
    var q, paths, more;
    ghost var found;
    if same {
      q, paths, more, found := ReuseWithinDataset(maxEdges, 1);
    } else {
      q, paths, more, found := ReuseUnderFilter(maxEdges, 1);
    }
    ReuseRefutes(q, same, filtered, maxEdges, 1, found, paths, more);
  }
}
