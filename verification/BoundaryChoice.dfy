// Which boundaries are kept and chosen among equally cheap ones, and by what each dataset is reached:
// the search and Kruskal's choice told apart from their sorting keys and classes.
module BoundaryChoice {
  import opened Order
  import opened Model
  import opened Regions
  import opened Boundaries
  import opened EarlyStop

  // ---------- the boundary kept between two regions ----------

  // Cheaper, or as cheap with an edge ID that is no greater.
  predicate ComesFirst(cost: nat, edgeId: string, otherCost: nat, otherId: string) {
    cost < otherCost || (cost == otherCost && TextLeq(edgeId, otherId))
  }

  lemma KeptComesFirst(c: Candidate, d: Candidate)
    requires NoDearer(c, d)
    ensures ComesFirst(c.cost, c.edgeId, d.cost, d.edgeId)
  {
    var xs, ys := CandidateKey(c).items, CandidateKey(d).items;
    assert TupleLeq(xs, ys) && xs[0] == Num(c.cost) && ys[0] == Num(d.cost);
    assert xs[0] == ys[0] || Leq(xs[0], ys[0]);
    if c.cost == d.cost {
      var x, y := xs[1..], ys[1..];
      assert TupleLeq(x, y) && x[0] == Text(c.edgeId) && y[0] == Text(d.edgeId);
      assert x[0] == y[0] || Leq(x[0], y[0]);
      TextTotal(c.edgeId, c.edgeId);
    }
  }

  // A relationship between two regions, at the cost of joining their terminals through it.
  ghost predicate Borders(adjacency: Adjacency, r: Search, u: string, v: string, e: Relationship) {
    && e in Edges(adjacency) && e.Joins(u, v) && u in r.reached && v in r.reached
    && r.reached[u].owner != r.reached[v].owner
  }

  function CostAcross(r: Search, u: string, v: string): nat
    requires u in r.reached && v in r.reached
  {
    r.reached[u].distance + 1 + r.reached[v].distance
  }

  // `c` is a relationship between the two regions of `pair`, under its cost and edge ID; both the pair and the
  // relationship's datasets are in order.
  ghost predicate IsBorder(adjacency: Adjacency, r: Search, pair: Pair, c: Candidate) {
    && Borders(adjacency, r, c.left, c.right, c.edge)
    && c.edgeId == c.edge.edgeId && c.cost == CostAcross(r, c.left, c.right)
    && {pair.0, pair.1} == {r.reached[c.left].owner, r.reached[c.right].owner}
    && TextLeq(c.left, c.right) && TextLeq(pair.0, pair.1)
  }

  lemma BoundaryIsBorder(adjacency: Adjacency, r: Search, pair: Pair, c: Candidate)
    requires IsBoundary(adjacency, r, pair, c)
    ensures IsBorder(adjacency, r, pair, c)
  {
    TextTotal(c.left, c.right);
    TextTotal(pair.0, pair.1);
    TextTotal(r.reached[c.left].owner, r.reached[c.right].owner);
  }

  lemma SeenKept(adjacency: Adjacency, r: Search, n: nat, u: string, v: string, e: Relationship)
    requires WellFormed(adjacency) && AllBoundaries(adjacency, r) && Settled(adjacency, r, n)
    requires Borders(adjacency, r, u, v, e) && r.reached[u].distance < n
    ensures var pair := SortedPair(r.reached[u].owner, r.reached[v].owner);
            && pair in r.candidates && IsBorder(adjacency, r, pair, r.candidates[pair])
            && ComesFirst(r.candidates[pair].cost, r.candidates[pair].edgeId, CostAcross(r, u, v), e.edgeId)
  {
    assert e in Incident(adjacency, u);
    assert Seen(r, u, v, e);
    var pair := PairFor(r, u, v);
    BoundaryIsBorder(adjacency, r, pair, r.candidates[pair]);
    KeptComesFirst(r.candidates[pair], CandidateFor(r, u, v, e));
  }

  // Once one end of a relationship between two regions is within the levels searched, their boundary
  // is a relationship between them that comes no later than it.
  lemma KeptIsLeast(adjacency: Adjacency, terminals: seq<string>, n: nat, u: string, v: string, e: Relationship)
    requires WellFormed(adjacency)
    requires Borders(adjacency, After(adjacency, terminals, n), u, v, e)
    requires After(adjacency, terminals, n).reached[u].distance < n
    ensures var r := After(adjacency, terminals, n);
            var pair := SortedPair(r.reached[u].owner, r.reached[v].owner);
            && pair in r.candidates && IsBorder(adjacency, r, pair, r.candidates[pair])
            && ComesFirst(r.candidates[pair].cost, r.candidates[pair].edgeId, CostAcross(r, u, v), e.edgeId)
  {
    AfterKeeps(adjacency, terminals, n);
    SeenKept(adjacency, After(adjacency, terminals, n), n, u, v, e);
  }

  // In a search that has run out of datasets every relationship between two regions is that near.
  lemma AllNear(adjacency: Adjacency, terminals: seq<string>, n: nat, u: string)
    requires WellFormed(adjacency) && After(adjacency, terminals, n).following == []
    requires u in After(adjacency, terminals, n).reached
    ensures After(adjacency, terminals, n).reached[u].distance < n
  {
    AfterKeeps(adjacency, terminals, n);
    assert u !in After(adjacency, terminals, n).following;
  }

  // ---------- the order boundaries are offered in ----------

  lemma OfferedInOrder(adjacency: Adjacency, terminals: seq<string>, n: nat, i: nat, j: nat)
    requires WellFormed(adjacency) && Distinguishes(ItemKey, After(adjacency, terminals, n).candidates.Items)
    requires i < j < |SortedItems(After(adjacency, terminals, n))|
    ensures var items := SortedItems(After(adjacency, terminals, n));
            ComesFirst(items[i].1.cost, items[i].1.edgeId, items[j].1.cost, items[j].1.edgeId)
  {
    var items := SortedItems(After(adjacency, terminals, n));
    assert Leq(ItemKey(items[i]), ItemKey(items[j]));
    KeptComesFirst(items[i].1, items[j].1);
  }

  // ---------- which of them are chosen ----------

  // Some set of terminals holds `x` without `y`, and no item leads out of it.
  ghost predicate Apart(items: seq<Item>, x: string, y: string) {
    exists s: set<string> :: x in s && y !in s && Encloses(s, items)
  }

  ghost predicate Encloses(s: set<string>, items: seq<Item>) {
    forall item :: item in items ==> (item.0.0 in s <==> item.0.1 in s)
  }

  ghost predicate BetweenTerminals(terminals: seq<string>, items: seq<Item>) {
    forall item :: item in items ==> item.0.0 in terminals && item.0.1 in terminals
  }

  lemma {:induction false} ClassInside(terminals: seq<string>, items: seq<Item>, s: set<string>, x: string, y: string)
    requires Encloses(s, items) && x in Kruskal(terminals, items).classes && y in Kruskal(terminals, items).classes
    requires Kruskal(terminals, items).classes[x] == Kruskal(terminals, items).classes[y]
    ensures x in s <==> y in s
  {
    if items == [] {
    } else {
      var init, item := items[..|items| - 1], items[|items| - 1];
      var m := Kruskal(terminals, init).classes;
      if Joinable(m, item.0) && m[x] != m[y] {
        var a, b := item.0.0, item.0.1;
        ClassInside(terminals, init, s, x, if m[x] == m[a] then a else b);
        ClassInside(terminals, init, s, y, if m[y] == m[a] then a else b);
      } else {
        ClassInside(terminals, init, s, x, y);
      }
    }
  }

  lemma ClassesApart(terminals: seq<string>, items: seq<Item>, x: string, y: string)
    requires BetweenTerminals(terminals, items) && x in terminals && y in terminals
    ensures x in Kruskal(terminals, items).classes && y in Kruskal(terminals, items).classes
    ensures Kruskal(terminals, items).classes[x] != Kruskal(terminals, items).classes[y] <==> Apart(items, x, y)
  {
    KruskalKeys(terminals, items);
    var m := Kruskal(terminals, items).classes;
    if m[x] != m[y] {
      var s := set z | z in m && m[z] == m[x];
      forall item | item in items ensures item.0.0 in s <==> item.0.1 in s {
        OfferedJoined(terminals, items, item);
      }
      assert Encloses(s, items);
    }
    if s: set<string> :| x in s && y !in s && Encloses(s, items) {
      if m[x] == m[y] { ClassInside(terminals, items, s, x, y); }
    }
  }

  // Item by item: one is chosen exactly if those before it leave its two regions apart.
  lemma ChosenExactly(terminals: seq<string>, items: seq<Item>, i: nat)
    requires BetweenTerminals(terminals, items) && i < |items|
    ensures Kruskal(terminals, items[..0]).chosen == []
    ensures Kruskal(terminals, items[..i + 1]).chosen
         == Kruskal(terminals, items[..i]).chosen
            + if Apart(items[..i], items[i].0.0, items[i].0.1) then [items[i].1] else []
  {
    assert items[..i + 1][..i] == items[..i] && items[i] in items;
    ClassesApart(terminals, items[..i], items[i].0.0, items[i].0.1);
  }

  // ---------- by what a dataset is reached ----------

  // The `j`-th relationship of the `i`-th dataset of the frontier leads to `x`.
  ghost predicate LeadsAt(adjacency: Adjacency, frontier: seq<string>, x: string, i: nat, j: nat) {
    && i < |frontier| && j < |Incident(adjacency, frontier[i])|
    && var e := Incident(adjacency, frontier[i])[j];
    e.Touches(frontier[i]) && e.Opposite(frontier[i]).nodeId == x
  }

  predicate Earlier(i: nat, j: nat, k: nat, l: nat) { i < k || (i == k && j < l) }

  // And none before it does.
  ghost predicate FirstAt(adjacency: Adjacency, frontier: seq<string>, x: string, i: nat, j: nat) {
    && LeadsAt(adjacency, frontier, x, i, j)
    && forall k: nat, l: nat :: LeadsAt(adjacency, frontier, x, k, l) ==> !Earlier(k, l, i, j)
  }

  // Where the `m`-th visit of a level is.
  function Place(adjacency: Adjacency, frontier: seq<string>, m: nat): (nat, nat)
    requires m < |Visits(adjacency, frontier)|
  {
    var init := frontier[..|frontier| - 1];
    var before := |Visits(adjacency, init)|;
    if m < before then Place(adjacency, init, m) else (|frontier| - 1, m - before)
  }

  lemma {:induction false} PlaceFits(adjacency: Adjacency, frontier: seq<string>, m: nat)
    requires m < |Visits(adjacency, frontier)|
    ensures var (i, j) := Place(adjacency, frontier, m);
            && i < |frontier| && j < |Incident(adjacency, frontier[i])|
            && Visits(adjacency, frontier)[m] == (frontier[i], Incident(adjacency, frontier[i])[j])
  {
    var init := frontier[..|frontier| - 1];
    if m < |Visits(adjacency, init)| {
      PlaceFits(adjacency, init, m);
      var (i, j) := Place(adjacency, init, m);
      assert init[i] == frontier[i];
    } else {
    }
  }

  lemma {:induction false} PlacesInOrder(adjacency: Adjacency, frontier: seq<string>, m: nat, n: nat)
    requires m < n < |Visits(adjacency, frontier)|
    ensures var (i, j) := Place(adjacency, frontier, m);
            var (k, l) := Place(adjacency, frontier, n);
            Earlier(i, j, k, l)
  {
    var init := frontier[..|frontier| - 1];
    if n < |Visits(adjacency, init)| {
      PlacesInOrder(adjacency, init, m, n);
    } else if m < |Visits(adjacency, init)| {
      PlaceFits(adjacency, init, m);
    } else {
    }
  }

  lemma {:induction false} EveryPlace(adjacency: Adjacency, frontier: seq<string>, i: nat, j: nat) returns (m: nat)
    requires i < |frontier| && j < |Incident(adjacency, frontier[i])|
    ensures m < |Visits(adjacency, frontier)| && Place(adjacency, frontier, m) == (i, j)
  {
    var init := frontier[..|frontier| - 1];
    if i < |init| {
      m := EveryPlace(adjacency, init, i, j);
    } else {
      m := |Visits(adjacency, init)| + j;
    }
  }

  ghost predicate Reaching(visits: seq<Step>, x: string, m: nat) {
    m < |visits| && visits[m].1.Touches(visits[m].0) && visits[m].1.Opposite(visits[m].0).nodeId == x
  }

  ghost predicate FirstReaching(visits: seq<Step>, x: string, m: nat) {
    Reaching(visits, x, m) && forall n: nat :: Reaching(visits, x, n) ==> m <= n
  }

  // New datasets are those the visits lead to, reached by the first one that does, and queued in that order.
  ghost predicate ReachedInOrder(r: Search, r': Search, visits: seq<Step>) {
    && (forall x :: x in r.reached ==> x in r'.reached && r'.reached[x] == r.reached[x])
    && (forall x :: x in r'.reached && x !in r.reached ==> exists m: nat :: ReachedAt(r, r', visits, x, m))
    && (forall x, m: nat :: Reaching(visits, x, m) ==> x in r'.reached)
    && (forall x :: x in r'.following <==> x in r'.reached && x !in r.reached)
    && (forall i, j, m: nat, n: nat ::
          0 <= i < j < |r'.following|
          && FirstReaching(visits, r'.following[i], m) && FirstReaching(visits, r'.following[j], n) ==>
            m < n)
  }

  ghost predicate ReachedAt(r: Search, r': Search, visits: seq<Step>, x: string, m: nat) {
    && FirstReaching(visits, x, m) && x in r'.reached && visits[m].0 in r.reached
    && var from := r.reached[visits[m].0];
    r'.reached[x] == Reached(from.owner, from.distance + 1, Some(visits[m]))
  }

  ghost predicate FromReached(r: Search, visits: seq<Step>) {
    forall v :: v in visits ==> v.0 in r.reached && v.1.Touches(v.0)
  }

  lemma ReachingNext(visits: seq<Step>, v: Step, x: string, m: nat)
    ensures Reaching(visits + [v], x, m) <==>
              Reaching(visits, x, m) || (m == |visits| && v.1.Touches(v.0) && v.1.Opposite(v.0).nodeId == x)
  {}

  lemma FirstReachingStays(visits: seq<Step>, v: Step, x: string, m: nat)
    requires FirstReaching(visits, x, m)
    ensures FirstReaching(visits + [v], x, m)
  {
    forall n: nat | Reaching(visits + [v], x, n) ensures m <= n {
      ReachingNext(visits, v, x, n);
    }
    ReachingNext(visits, v, x, m);
  }

  lemma ReachedStays(r: Search, mid: Search, visits: seq<Step>, v: Step, x: string)
    requires FromReached(r, visits + [v]) && ReachedInOrder(r, mid, visits) && x in mid.reached && x !in r.reached
    ensures exists m: nat :: ReachedAt(r, VisitStep(mid, v), visits + [v], x, m)
  {
    var m: nat :| ReachedAt(r, mid, visits, x, m);
    FirstReachingStays(visits, v, x, m);
    assert ReachedAt(r, VisitStep(mid, v), visits + [v], x, m);
  }

  lemma ReachedNow(r: Search, mid: Search, visits: seq<Step>, v: Step, x: string)
    requires FromReached(r, visits + [v]) && ReachedInOrder(r, mid, visits)
    requires x == v.1.Opposite(v.0).nodeId && x !in mid.reached
    ensures ReachedAt(r, VisitStep(mid, v), visits + [v], x, |visits|)
  {
    assert v in visits + [v];
    forall n: nat | Reaching(visits + [v], x, n) ensures |visits| <= n {
      ReachingNext(visits, v, x, n);
    }
    ReachingNext(visits, v, x, |visits|);
  }

  lemma OrderNext(r: Search, mid: Search, after: Search, visits: seq<Step>, v: Step)
    requires FromReached(r, visits + [v]) && ReachedInOrder(r, mid, visits) && after == VisitStep(mid, v)
    ensures forall i, j, m: nat, n: nat ::
              0 <= i < j < |after.following|
              && FirstReaching(visits + [v], after.following[i], m)
              && FirstReaching(visits + [v], after.following[j], n) ==>
                m < n
  {
    forall i, j, m: nat, n: nat | 0 <= i < j < |after.following|
        && FirstReaching(visits + [v], after.following[i], m) && FirstReaching(visits + [v], after.following[j], n)
      ensures m < n
    {
      var x, y := after.following[i], after.following[j];
      assert x == mid.following[i] && x in mid.following;
      var k: nat :| ReachedAt(r, mid, visits, x, k);
      FirstReachingStays(visits, v, x, k);
      if j < |mid.following| {
        assert y in mid.following;
        var l: nat :| ReachedAt(r, mid, visits, y, l);
        FirstReachingStays(visits, v, y, l);
      } else {
        ReachedNow(r, mid, visits, v, y);
      }
    }
  }

  lemma ReachedInOrderNext(r: Search, mid: Search, visits: seq<Step>, v: Step)
    requires FromReached(r, visits + [v]) && ReachedInOrder(r, mid, visits)
    ensures ReachedInOrder(r, VisitStep(mid, v), visits + [v])
  {
    var after := VisitStep(mid, v);
    assert v in visits + [v];
    forall x | x in after.reached && x !in r.reached ensures exists m: nat :: ReachedAt(r, after, visits + [v], x, m) {
      if x in mid.reached {
        ReachedStays(r, mid, visits, v, x);
      } else {
        ReachedNow(r, mid, visits, v, x);
      }
    }
    forall x, m: nat | Reaching(visits + [v], x, m) ensures x in after.reached {
      ReachingNext(visits, v, x, m);
    }
    OrderNext(r, mid, after, visits, v);
  }

  lemma {:induction false} VisitAllReaches(r: Search, visits: seq<Step>)
    requires FromReached(r, visits) && r.following == []
    ensures ReachedInOrder(r, VisitAll(r, visits), visits)
  {
    if visits == [] {
    } else {
      var init, last := visits[..|visits| - 1], visits[|visits| - 1];
      VisitAllReaches(r, init);
      ReachedInOrderNext(r, VisitAll(r, init), init, last);
      assert visits == init + [last];
    }
  }

  // ---------- level by level ----------

  lemma FirstIsFirst(adjacency: Adjacency, frontier: seq<string>, x: string, m: nat)
    requires FirstReaching(Visits(adjacency, frontier), x, m)
    ensures m < |Visits(adjacency, frontier)|
    ensures var (i, j) := Place(adjacency, frontier, m);
            FirstAt(adjacency, frontier, x, i, j)
  {
    var (i, j) := Place(adjacency, frontier, m);
    PlaceFits(adjacency, frontier, m);
    forall k: nat, l: nat | LeadsAt(adjacency, frontier, x, k, l) ensures !Earlier(k, l, i, j) {
      var n := EveryPlace(adjacency, frontier, k, l);
      PlaceFits(adjacency, frontier, n);
      assert Reaching(Visits(adjacency, frontier), x, n);
      if m < n { PlacesInOrder(adjacency, frontier, m, n); }
    }
  }

  // `x` was reached by the `j`-th relationship of the `i`-th dataset of the frontier, the first to lead to it.
  ghost predicate FoundAt(adjacency: Adjacency, r: Search, r': Search, x: string, i: nat, j: nat) {
    && FirstAt(adjacency, r.following, x, i, j)
    && r.following[i] in r.reached && x in r'.reached
    && var from := r.reached[r.following[i]];
    r'.reached[x] ==
      Reached(from.owner, from.distance + 1, Some((r.following[i], Incident(adjacency, r.following[i])[j])))
  }

  lemma LevelReaches(adjacency: Adjacency, terminals: seq<string>, n: nat)
    requires WellFormed(adjacency)
    ensures var r := After(adjacency, terminals, n);
            ReachedInOrder(r.(following := []), After(adjacency, terminals, n + 1), Visits(adjacency, r.following))
  {
    var r := After(adjacency, terminals, n);
    var begun, visits := r.(following := []), Visits(adjacency, r.following);
    AfterKeeps(adjacency, terminals, n);
    forall v | v in visits ensures v.0 in begun.reached && v.1.Touches(v.0) {
      VisitsMembers(adjacency, r.following);
      assert v == (v.0, v.1);
    }
    VisitAllReaches(begun, visits);
  }

  // Every dataset a level adds is reached by the first relationship that leads to it, frontier first, each
  // dataset's relationships in the order given.
  lemma ReachedByFirst(adjacency: Adjacency, terminals: seq<string>, n: nat, x: string) returns (i: nat, j: nat)
    requires WellFormed(adjacency)
    requires x in After(adjacency, terminals, n + 1).reached && x !in After(adjacency, terminals, n).reached
    ensures FoundAt(adjacency, After(adjacency, terminals, n), After(adjacency, terminals, n + 1), x, i, j)
  {
    LevelReaches(adjacency, terminals, n);
    var r, r' := After(adjacency, terminals, n), After(adjacency, terminals, n + 1);
    var visits := Visits(adjacency, r.following);
    var m: nat :| ReachedAt(r.(following := []), r', visits, x, m);
    FirstIsFirst(adjacency, r.following, x, m);
    PlaceFits(adjacency, r.following, m);
    var place := Place(adjacency, r.following, m);
    i, j := place.0, place.1;
  }

  // And the next frontier lists them in the order they are reached in.
  lemma QueuedInOrder(adjacency: Adjacency, terminals: seq<string>, n: nat, a: nat, b: nat, i: nat, j: nat, k: nat,
                      l: nat)
    requires WellFormed(adjacency) && a < b < |After(adjacency, terminals, n + 1).following|
    requires FirstAt(adjacency, After(adjacency, terminals, n).following,
                     After(adjacency, terminals, n + 1).following[a], i, j)
    requires FirstAt(adjacency, After(adjacency, terminals, n).following,
                     After(adjacency, terminals, n + 1).following[b], k, l)
    ensures Earlier(i, j, k, l)
  {
    LevelReaches(adjacency, terminals, n);
    var r, r' := After(adjacency, terminals, n), After(adjacency, terminals, n + 1);
    var visits := Visits(adjacency, r.following);
    var p := FirstVisit(adjacency, r.following, r'.following[a], i, j);
    var q := FirstVisit(adjacency, r.following, r'.following[b], k, l);
    PlacesInOrder(adjacency, r.following, p, q);
  }

  lemma FirstVisit(adjacency: Adjacency, frontier: seq<string>, x: string, i: nat, j: nat) returns (m: nat)
    requires FirstAt(adjacency, frontier, x, i, j)
    ensures FirstReaching(Visits(adjacency, frontier), x, m) && m < |Visits(adjacency, frontier)|
    ensures Place(adjacency, frontier, m) == (i, j)
  {
    m := EveryPlace(adjacency, frontier, i, j);
    PlaceFits(adjacency, frontier, m);
    forall n: nat | Reaching(Visits(adjacency, frontier), x, n) ensures m <= n {
      PlaceFits(adjacency, frontier, n);
      var (k, l) := Place(adjacency, frontier, n);
      assert LeadsAt(adjacency, frontier, x, k, l);
      if n < m { PlacesInOrder(adjacency, frontier, n, m); }
    }
  }
}
