// Why the chosen boundaries are at most twice as heavy as any connected subgraph.
//
// Cut every relationship of a connected subgraph F into two halves and give each half a level: the
// halves at level c lie between distance c/2 and (c+1)/2 from the nearest terminal.  While the
// candidates of cost at most c leave k > 1 classes of terminals, F must leave each class through a
// half at level c, so F has at least k halves there.  Summed over the levels this pays for the
// boundaries, for the dearest of them twice.
module Moats {
  import opened Order
  import opened Model
  import opened Sets
  import opened Graph
  import opened Regions
  import opened Boundaries

  // A search that has run out of datasets.
  ghost predicate Full(adjacency: Adjacency, terminals: seq<string>, r: Search, n: nat) {
    WellFormed(adjacency) && Valid(adjacency, terminals, r, n) && Settled(adjacency, r, n) && r.following == []
  }

  // What the argument needs of a full search: `e` stays among the reached datasets, spans at most
  // one step of distance, and across a border it costs no less than that border's candidate.
  ghost predicate Fits(r: Search, e: Relationship) {
    e.a.nodeId in r.reached || e.b.nodeId in r.reached ==>
      && e.a.nodeId in r.reached && e.b.nodeId in r.reached
      && var x := r.reached[e.a.nodeId];
      var y := r.reached[e.b.nodeId];
      && x.distance <= y.distance + 1 && y.distance <= x.distance + 1
      && (x.owner != y.owner ==>
            && SortedPair(x.owner, y.owner) in r.candidates
            && r.candidates[SortedPair(x.owner, y.owner)].cost <= x.distance + 1 + y.distance)
  }

  ghost predicate AllFit(r: Search, edges: set<Relationship>) {
    forall e :: e in edges ==> Fits(r, e)
  }

  lemma NoDearerCost(c: Candidate, d: Candidate)
    requires NoDearer(c, d)
    ensures c.cost <= d.cost
  {
    var xs, ys := CandidateKey(c).items, CandidateKey(d).items;
    assert TupleLeq(xs, ys);
    assert xs[0] == ys[0] || Leq(xs[0], ys[0]);
    assert xs[0] == Num(c.cost) && ys[0] == Num(d.cost);
  }

  lemma FullFits(adjacency: Adjacency, terminals: seq<string>, r: Search, n: nat, e: Relationship)
    requires Full(adjacency, terminals, r, n) && e in Edges(adjacency)
    ensures Fits(r, e)
  {
    var u, v := e.a.nodeId, e.b.nodeId;
    assert e in Incident(adjacency, u) && e in Incident(adjacency, v);
    if u in r.reached {
      assert u !in r.following;
      assert Seen(r, u, e.Opposite(u).nodeId, e);
    }
    if v in r.reached {
      assert v !in r.following;
      assert Seen(r, v, e.Opposite(v).nodeId, e);
    }
    if u in r.reached && r.reached[u].owner != r.reached[v].owner {
      NoDearerCost(r.candidates[PairFor(r, u, v)], CandidateFor(r, u, v, e));
    }
  }

  // ---------- halves and their levels ----------

  datatype Half = Half(edge: Relationship, fromA: bool) {
    function Near(): string { if fromA then edge.a.nodeId else edge.b.nodeId }
    function Far(): string { if fromA then edge.b.nodeId else edge.a.nodeId }
  }

  ghost function Halves(edges: set<Relationship>): set<Half> {
    set e, fromA | e in edges && fromA in {true, false} :: Half(e, fromA)
  }

  lemma {:induction false} HalvesSize(edges: set<Relationship>)
    ensures |Halves(edges)| == 2 * |edges|
  {
    if edges == {} {
    } else {
      var e :| e in edges;
      HalvesSize(edges - {e});
      assert Halves(edges) == Halves(edges - {e}) + {Half(e, true), Half(e, false)};
    }
  }

  predicate Placed(r: Search, h: Half) { h.Near() in r.reached && h.Far() in r.reached }

  // The half next to `Near` ends at it, unless the far end is closer to a terminal.
  predicate Leaving(r: Search, h: Half)
    requires Placed(r, h)
  {
    r.reached[h.Near()].distance <= r.reached[h.Far()].distance
  }

  function Level(r: Search, h: Half): int
    requires Placed(r, h)
  {
    if Leaving(r, h) then 2 * r.reached[h.Near()].distance else 2 * r.reached[h.Near()].distance - 1
  }

  function Region(r: Search, h: Half): string
    requires Placed(r, h)
  {
    if Leaving(r, h) then r.reached[h.Near()].owner else r.reached[h.Far()].owner
  }

  ghost function AtLevel(edges: set<Relationship>, r: Search, c: int): set<Half> {
    set h | h in Halves(edges) && Placed(r, h) && Level(r, h) == c
  }

  ghost function Below(edges: set<Relationship>, r: Search, c: int): set<Half> {
    set h | h in Halves(edges) && Placed(r, h) && Level(r, h) < c
  }

  lemma BelowNext(edges: set<Relationship>, r: Search, c: int)
    ensures |Below(edges, r, c + 1)| == |Below(edges, r, c)| + |AtLevel(edges, r, c)|
  {
    assert Below(edges, r, c + 1) == Below(edges, r, c) + AtLevel(edges, r, c);
    assert Below(edges, r, c) !! AtLevel(edges, r, c);
  }

  // ---------- every class is left at every level below its next boundary ----------

  ghost predicate ClassesUpTo(r: Search, classes: map<string, string>, c: int) {
    && (forall x :: x in r.reached ==> r.reached[x].owner in classes)
    && (forall p :: p in r.candidates && r.candidates[p].cost <= c ==>
          p.0 in classes && p.1 in classes && classes[p.0] == classes[p.1])
  }

  ghost predicate Spans(edges: set<Relationship>, terminals: seq<string>) {
    forall s, t :: s in terminals && t in terminals ==> Connected(edges, s, t)
  }

  ghost predicate Own(r: Search, terminals: seq<string>) {
    forall t :: t in terminals ==> t in r.reached && r.reached[t].owner == t && r.reached[t].distance == 0
  }

  ghost predicate Inside(r: Search, classes: map<string, string>, k: string, c: nat, x: string) {
    && x in r.reached && 2 * r.reached[x].distance <= c
    && r.reached[x].owner in classes && classes[r.reached[x].owner] == k
  }

  // The half by which `e` leaves what class `k` has covered at level `c`.
  lemma LeavingHalf(r: Search, classes: map<string, string>, k: string, c: nat, e: Relationship, fromA: bool)
    returns (h: Half)
    requires Fits(r, e) && ClassesUpTo(r, classes, c)
    requires Inside(r, classes, k, c, Half(e, fromA).Near()) && !Inside(r, classes, k, c, Half(e, fromA).Far())
    ensures h.edge == e && Placed(r, h) && Level(r, h) == c
    ensures Region(r, h) in classes && classes[Region(r, h)] == k
  {
    h := Half(e, if 2 * r.reached[Half(e, fromA).Near()].distance == c then fromA else !fromA);
  }

  lemma ClassLeaves(r: Search, edges: set<Relationship>, terminals: seq<string>, classes: map<string, string>, c: nat,
                    s: string, t: string)
    returns (h: Half)
    requires AllFit(r, edges) && ClassesUpTo(r, classes, c) && Own(r, terminals)
    requires s in terminals && t in terminals && s in classes && t in classes
    requires Connected(edges, s, t) && classes[s] != classes[t]
    ensures h in AtLevel(edges, r, c) && Region(r, h) in classes && classes[Region(r, h)] == classes[s]
  {
    var inside := set x | x in r.reached && Inside(r, classes, classes[s], c, x);
    CutCrossed(edges, s, t, inside);
    var e :| e in edges && Crosses(e, inside);
    h := LeavingHalf(r, classes, classes[s], c, e, e.a.nodeId in inside);
    assert h == Half(e, h.fromA) && h in Halves(edges);
  }

  lemma LevelPays(r: Search, edges: set<Relationship>, terminals: seq<string>, classes: map<string, string>, c: nat)
    requires AllFit(r, edges) && ClassesUpTo(r, classes, c) && Own(r, terminals) && Spans(edges, terminals)
    requires forall t :: t in classes <==> t in terminals
    requires |classes.Values| > 1
    ensures |AtLevel(edges, r, c)| >= |classes.Values|
  {
    var f := (h: Half) => if Placed(r, h) && Region(r, h) in classes then classes[Region(r, h)] else "";
    forall k | k in classes.Values ensures exists h :: h in AtLevel(edges, r, c) && f(h) == k {
      var s :| s in classes && classes[s] == k;
      var k' := Another(classes.Values, k);
      var t :| t in classes && classes[t] == k';
      var h := ClassLeaves(r, edges, terminals, classes, c, s, t);
      assert f(h) == k;
    }
    ImageSize(AtLevel(edges, r, c), classes.Values, f);
  }

  lemma Another(s: set<string>, x: string) returns (y: string)
    requires |s| > 1
    ensures y in s && y != x
  {
    if s <= {x} {
      SubsetSize(s, {x});
    }
    y :| y in s && y != x;
  }

  lemma ClassesBelow(r: Search, classes: map<string, string>, c: int, d: int)
    requires ClassesUpTo(r, classes, d) && c <= d
    ensures ClassesUpTo(r, classes, c)
  {}

  ghost predicate Pays(r: Search, edges: set<Relationship>, c: nat, k: nat) {
    |Below(edges, r, c + 1)| >= |Below(edges, r, c)| + k
  }

  lemma {:induction false} ClimbLevels(r: Search, edges: set<Relationship>, low: nat, high: nat, k: nat)
    requires low <= high && forall c: nat {:trigger Pays(r, edges, c, k)} :: low <= c < high ==> Pays(r, edges, c, k)
    ensures |Below(edges, r, high)| >= |Below(edges, r, low)| + (high - low) * k
    decreases high - low
  {
    if low >= high {
    } else {
      ClimbLevels(r, edges, low, high - 1, k);
      assert Pays(r, edges, high - 1, k);
      OneMore(high - 1 - low, high - low, k);
    }
  }

  lemma OneMore(n: nat, m: nat, k: nat)
    requires m == n + 1
    ensures m * k == n * k + k
  {}

  lemma LevelsPay(r: Search, edges: set<Relationship>, terminals: seq<string>, classes: map<string, string>, low: nat,
                  high: nat)
    requires AllFit(r, edges) && Own(r, terminals) && Spans(edges, terminals)
    requires low <= high && (low < high ==> ClassesUpTo(r, classes, high - 1))
    requires forall t :: t in classes <==> t in terminals
    requires |classes.Values| > 1
    ensures |Below(edges, r, high)| >= |Below(edges, r, low)| + (high - low) * |classes.Values|
  {
    forall c: nat | low <= c < high ensures Pays(r, edges, c, |classes.Values|) {
      ClassesBelow(r, classes, c, high - 1);
      NextLevelPays(r, edges, terminals, classes, c);
    }
    ClimbLevels(r, edges, low, high, |classes.Values|);
  }

  lemma NextLevelPays(r: Search, edges: set<Relationship>, terminals: seq<string>, classes: map<string, string>, c: nat)
    requires AllFit(r, edges) && ClassesUpTo(r, classes, c) && Own(r, terminals) && Spans(edges, terminals)
    requires forall t :: t in classes <==> t in terminals
    requires |classes.Values| > 1
    ensures |Below(edges, r, c + 1)| >= |Below(edges, r, c)| + |classes.Values|
  {
    LevelPays(r, edges, terminals, classes, c);
    BelowNext(edges, r, c);
  }

  // ---------- the whole choice ----------

  function Weight(chosen: seq<Candidate>): nat {
    if chosen == [] then 0 else Weight(chosen[..|chosen| - 1]) + chosen[|chosen| - 1].cost
  }

  function Dearest(chosen: seq<Candidate>): nat {
    if chosen == [] then 0 else chosen[|chosen| - 1].cost
  }

  // The candidates of a search, in the order Kruskal takes them.
  ghost predicate Offered(r: Search, items: seq<Item>) {
    && (forall item :: item in items <==> item in r.candidates.Items)
    && Ascending(items, ItemKey)
  }

  lemma AscendingCost(items: seq<Item>, i: nat, j: nat)
    requires Ascending(items, ItemKey) && i <= j < |items|
    ensures items[i].1.cost <= items[j].1.cost
  {
    if i < j {
      assert Leq(ItemKey(items[i]), ItemKey(items[j]));
      NoDearerCost(items[i].1, items[j].1);
    }
  }

  // The search as the argument sees it, and Kruskal's input.
  ghost predicate Setting(r: Search, edges: set<Relationship>, terminals: seq<string>, items: seq<Item>) {
    && AllFit(r, edges) && Own(r, terminals) && Spans(edges, terminals)
    && NoDuplicates(terminals) && Offered(r, items)
    && (forall x :: x in r.reached ==> r.reached[x].owner in terminals)
    && (forall p :: p in r.candidates ==> p.0 in terminals && p.1 in terminals)
  }

  lemma FullSetting(adjacency: Adjacency, terminals: seq<string>, r: Search, n: nat, edges: set<Relationship>,
                    items: seq<Item>)
    requires Full(adjacency, terminals, r, n) && edges <= Edges(adjacency) && Spans(edges, terminals)
    requires NoDuplicates(terminals) && Offered(r, items)
    ensures Setting(r, edges, terminals, items)
  {
    forall e | e in edges ensures Fits(r, e) {
      FullFits(adjacency, terminals, r, n, e);
    }
    forall x | x in r.reached
      ensures r.reached[x].owner in terminals && (x in terminals ==> r.reached[x] == Reached(x, 0, None))
    {
      assert Rooted(adjacency, terminals, r, x);
    }
    forall p | p in r.candidates ensures p.0 in terminals && p.1 in terminals {
      assert IsBoundary(adjacency, r, p, r.candidates[p]);
    }
  }

  // After the first `i` candidates, everything cheaper than the next one is inside a class.
  lemma PrefixClasses(r: Search, edges: set<Relationship>, terminals: seq<string>, items: seq<Item>, i: nat)
    requires Setting(r, edges, terminals, items) && i < |items| && items[i].1.cost > 0
    ensures ClassesUpTo(r, Kruskal(terminals, items[..i]).classes, items[i].1.cost - 1)
  {
    var classes := Kruskal(terminals, items[..i]).classes;
    KruskalKeys(terminals, items[..i]);
    forall p | p in r.candidates && r.candidates[p].cost <= items[i].1.cost - 1
      ensures p.0 in classes && p.1 in classes && classes[p.0] == classes[p.1]
    {
      var item := (p, r.candidates[p]);
      assert item in r.candidates.Items;
      var j :| 0 <= j < |items| && items[j] == item;
      if j >= i {
        AscendingCost(items, i, j);
      }
      assert item in items[..i] by { assert items[..i][j] == item; }
      OfferedJoined(terminals, items[..i], item);
    }
  }

  ghost predicate Paid(r: Search, edges: set<Relationship>, f: Forest) {
    |Below(edges, r, Dearest(f.chosen))| >= Weight(f.chosen) + |f.classes.Values| * Dearest(f.chosen)
  }

  lemma PayArithmetic(k: int, low: int, high: int)
    ensures k * low + (high - low) * k == high + (k - 1) * high
  {}

  lemma ChosenPaid(r: Search, edges: set<Relationship>, terminals: seq<string>, items: seq<Item>, i: nat)
    requires Setting(r, edges, terminals, items) && i < |items|
    requires Joinable(Kruskal(terminals, items[..i]).classes, items[i].0)
    requires Paid(r, edges, Kruskal(terminals, items[..i]))
    requires Dearest(Kruskal(terminals, items[..i]).chosen) <= items[i].1.cost
    ensures Paid(r, edges, Choose(Kruskal(terminals, items[..i]), items[i]))
  {
    var before, pair, c := Kruskal(terminals, items[..i]), items[i].0, items[i].1;
    var classes, low, high := before.classes, Dearest(before.chosen), c.cost;
    KruskalKeys(terminals, items[..i]);
    MergeValues(classes, pair.0, pair.1);
    assert |classes.Values| > 1 by {
      SubsetSize({classes[pair.0], classes[pair.1]}, classes.Values);
    }
    if low < high {
      PrefixClasses(r, edges, terminals, items, i);
    }
    LevelsPay(r, edges, terminals, classes, low, high);
    assert (before.chosen + [c])[..|before.chosen|] == before.chosen;
    PayArithmetic(|classes.Values|, low, high);
  }

  // The halves of F below the dearest chosen boundary pay for all of them, and once more that
  // boundary's cost for every class still apart.
  lemma {:induction false} PrefixPaid(r: Search, edges: set<Relationship>, terminals: seq<string>, items: seq<Item>,
                                      i: nat)
    requires Setting(r, edges, terminals, items) && i <= |items|
    ensures Paid(r, edges, Kruskal(terminals, items[..i]))
    ensures i < |items| ==> Dearest(Kruskal(terminals, items[..i]).chosen) <= items[i].1.cost
    decreases i
  {
    if i == 0 {
    } else {
      PrefixPaid(r, edges, terminals, items, i - 1);
      assert items[..i][..i - 1] == items[..i - 1];
      if i < |items| { AscendingCost(items, i - 1, i); }
      if Joinable(Kruskal(terminals, items[..i - 1]).classes, items[i - 1].0) {
        ChosenPaid(r, edges, terminals, items, i - 1);
      }
    }
  }

  // The boundaries and their dearest one together weigh at most 2|F|.
  lemma ChoicePaid(r: Search, edges: set<Relationship>, terminals: seq<string>, items: seq<Item>)
    requires Setting(r, edges, terminals, items) && terminals != []
    ensures var chosen := Kruskal(terminals, items).chosen;
            Weight(chosen) + Dearest(chosen) <= 2 * |edges|
  {
    var f := Kruskal(terminals, items);
    assert items[..|items|] == items;
    PrefixPaid(r, edges, terminals, items, |items|);
    KruskalKeys(terminals, items);
    var k := f.classes[terminals[0]];
    SubsetSize({k}, f.classes.Values);
    AtLeastOnce(|f.classes.Values|, Dearest(f.chosen));
    SubsetSize(Below(edges, r, Dearest(f.chosen)), Halves(edges));
    HalvesSize(edges);
  }

  lemma AtLeastOnce(k: nat, x: nat)
    requires k >= 1
    ensures k * x >= x
  {}
}
