// Stopping early changes nothing: the candidates gathered in `m` levels are final, and every
// candidate found later costs more than all of them.
module EarlyStop {
  import opened Order
  import opened Regions
  import opened Boundaries
  import opened Moats

  lemma ItemsDistinct(adjacency: Adjacency, r: Search)
    requires WellFormed(adjacency) && AllBoundaries(adjacency, r)
    ensures Distinguishes(ItemKey, r.candidates.Items)
  {
    forall x, y | x in r.candidates.Items && y in r.candidates.Items && ItemKey(x) == ItemKey(y) ensures x == y {
      assert IsBoundary(adjacency, r, x.0, x.1) && IsBoundary(adjacency, r, y.0, y.1);
      SameKey(adjacency, x.1, y.1);
    }
  }

  lemma SameKey(adjacency: Adjacency, c: Candidate, d: Candidate)
    requires WellFormed(adjacency) && c.edge in Edges(adjacency) && d.edge in Edges(adjacency)
    requires c.edgeId == c.edge.edgeId && d.edgeId == d.edge.edgeId
    requires CandidateKey(c) == CandidateKey(d)
    ensures c == d
  {
    var xs, ys := CandidateKey(c).items, CandidateKey(d).items;
    assert xs[0] == Num(c.cost) && xs[1] == Text(c.edgeId) && xs[2] == Text(c.left) && xs[3] == Text(c.right);
    assert ys[0] == Num(d.cost) && ys[1] == Text(d.edgeId) && ys[2] == Text(d.left) && ys[3] == Text(d.right);
  }

  // A candidate within the cost of the first `m` levels has an end those levels have visited.
  lemma CheapSeen(adjacency: Adjacency, terminals: seq<string>, m: nat, n: nat, p: Pair)
    requires WellFormed(adjacency) && m <= n
    requires p in After(adjacency, terminals, n).candidates
    requires After(adjacency, terminals, n).candidates[p].cost <= 2 * m
    ensures p in After(adjacency, terminals, m).candidates
    ensures NoDearer(After(adjacency, terminals, m).candidates[p], After(adjacency, terminals, n).candidates[p])
  {
    var early, late := After(adjacency, terminals, m), After(adjacency, terminals, n);
    AfterKeeps(adjacency, terminals, m);
    AfterKeeps(adjacency, terminals, n);
    AfterExtends(adjacency, terminals, m, n);
    var c := late.candidates[p];
    assert IsBoundary(adjacency, late, p, c);
    var u := if late.reached[c.left].distance < m then c.left else c.right;
    AfterReaches(adjacency, terminals, m, n, u);
    CheapOffered(adjacency, early, late, m, p, c, u);
  }

  lemma CheapOffered(adjacency: Adjacency, early: Search, late: Search, m: nat, p: Pair, c: Candidate, u: string)
    requires WellFormed(adjacency) && Settled(adjacency, early, m) && Extends(early, late)
    requires IsBoundary(adjacency, late, p, c)
    requires u in {c.left, c.right} && u in early.reached && early.reached[u].distance < m
    ensures p in early.candidates && NoDearer(early.candidates[p], c)
  {
    var e := c.edge;
    var v := if u == c.left then c.right else c.left;
    assert e in Incident(adjacency, u) && e.Opposite(u).nodeId == v;
    assert Seen(early, u, v, e);
    SortedPairSym(u, v);
    SortedPairSym(late.reached[u].owner, late.reached[v].owner);
    assert c == CandidateFor(early, u, v, e) && p == PairFor(early, u, v);
  }

  lemma CandidateFinal(adjacency: Adjacency, terminals: seq<string>, m: nat, n: nat, p: Pair)
    requires WellFormed(adjacency) && m <= n
    requires p in After(adjacency, terminals, m).candidates
    ensures p in After(adjacency, terminals, n).candidates
    ensures After(adjacency, terminals, m).candidates[p] == After(adjacency, terminals, n).candidates[p]
    ensures After(adjacency, terminals, m).candidates[p].cost <= 2 * m
  {
    var early, late := After(adjacency, terminals, m), After(adjacency, terminals, n);
    AfterKeeps(adjacency, terminals, m);
    AfterKeeps(adjacency, terminals, n);
    AfterExtends(adjacency, terminals, m, n);
    var c, d := early.candidates[p], late.candidates[p];
    NoDearerCost(d, c);
    CheapSeen(adjacency, terminals, m, n, p);
    Total(CandidateKey(c), CandidateKey(d));
    assert IsBoundary(adjacency, early, p, c) && IsBoundary(adjacency, late, p, d);
    SameKey(adjacency, c, d);
  }

  // The candidates of a search in the order of `sorted(candidates.items(), ...)`.
  ghost function SortedItems(r: Search): (items: seq<Item>)
    requires Distinguishes(ItemKey, r.candidates.Items)
    ensures Offered(r, items) && NoDuplicates(items)
  {
    Sorted(r.candidates.Items, ItemKey)
  }

  lemma LaterIsDearer(adjacency: Adjacency, terminals: seq<string>, m: nat, n: nat, x: Item, y: Item)
    requires WellFormed(adjacency) && m <= n
    requires x in After(adjacency, terminals, m).candidates.Items
    requires y in After(adjacency, terminals, n).candidates.Items
    requires y !in After(adjacency, terminals, m).candidates.Items
    ensures x.1.cost < y.1.cost
  {
    CandidateFinal(adjacency, terminals, m, n, x.0);
    if y.1.cost <= 2 * m {
      CheapSeen(adjacency, terminals, m, n, y.0);
      CandidateFinal(adjacency, terminals, m, n, y.0);
    }
  }

  lemma CheaperFirst(c: Candidate, d: Candidate)
    requires c.cost < d.cost
    ensures NoDearer(c, d)
  {
    NoDearerOrder(c, d, c);
    if NoDearer(d, c) {
      NoDearerCost(d, c);
    }
  }

  // The sorted candidates after `m` levels are the beginning of the sorted candidates after `n`.
  lemma EarlyPrefix(adjacency: Adjacency, terminals: seq<string>, m: nat, n: nat)
    requires WellFormed(adjacency) && m <= n
    ensures AllBoundaries(adjacency, After(adjacency, terminals, m))
    ensures AllBoundaries(adjacency, After(adjacency, terminals, n))
    ensures Distinguishes(ItemKey, After(adjacency, terminals, m).candidates.Items)
    ensures Distinguishes(ItemKey, After(adjacency, terminals, n).candidates.Items)
    ensures SortedItems(After(adjacency, terminals, m)) <= SortedItems(After(adjacency, terminals, n))
  {
    AfterKeeps(adjacency, terminals, m);
    AfterKeeps(adjacency, terminals, n);
    var s, t := After(adjacency, terminals, m).candidates.Items, After(adjacency, terminals, n).candidates.Items;
    ItemsDistinct(adjacency, After(adjacency, terminals, m));
    ItemsDistinct(adjacency, After(adjacency, terminals, n));
    forall x | x in s ensures x in t {
      CandidateFinal(adjacency, terminals, m, n, x.0);
    }
    forall x, y | x in s && y in t && y !in s ensures Leq(ItemKey(x), ItemKey(y)) {
      LaterIsDearer(adjacency, terminals, m, n, x, y);
      CheaperFirst(x.1, y.1);
    }
    SortedPrefix(s, t, ItemKey);
  }

  // If the first `m` levels already join all terminals, any number of further levels chooses the
  // same boundaries.
  lemma EarlyChoice(adjacency: Adjacency, terminals: seq<string>, m: nat, n: nat)
    requires WellFormed(adjacency) && NoDuplicates(terminals) && m <= n
    requires AllBoundaries(adjacency, After(adjacency, terminals, m))
    requires Distinguishes(ItemKey, After(adjacency, terminals, m).candidates.Items)
    requires |Kruskal(terminals, SortedItems(After(adjacency, terminals, m))).chosen| + 1 == |terminals|
    ensures Distinguishes(ItemKey, After(adjacency, terminals, n).candidates.Items)
    ensures Kruskal(terminals, SortedItems(After(adjacency, terminals, n)))
         == Kruskal(terminals, SortedItems(After(adjacency, terminals, m)))
  {
    EarlyPrefix(adjacency, terminals, m, n);
    KruskalStops(terminals, SortedItems(After(adjacency, terminals, m)), SortedItems(After(adjacency, terminals, n)));
  }
}
