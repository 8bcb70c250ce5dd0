// What the connecting tree is worth: it exists exactly when the terminals are connected, it is a
// tree with only terminals as leaves, and it is within 2 - 2/t of the smallest subgraph
// connecting its t terminals.
module ConnectingTheorems {
  import opened Order
  import opened Model
  import opened Sets
  import opened Graph
  import opened Regions
  import opened Boundaries
  import opened Moats
  import opened EarlyStop
  import opened SteinerTree
  import opened ConnectingResult

  // `edges` is a connected subgraph's worth of relationships joining all terminals.
  ghost predicate Connects(adjacency: Adjacency, terminals: seq<string>, edges: set<Relationship>) {
    edges <= Edges(adjacency) && Spans(edges, terminals)
  }

  ghost predicate SteinerTreeOf(adjacency: Adjacency, terminals: seq<string>, nodes: set<string>,
                                edges: set<Relationship>) {
    && edges <= Edges(adjacency)
    && (forall t :: t in terminals ==> t in nodes)
    && IsTree(nodes, edges) && OnlyTerminalLeaves(terminals, nodes, edges)
    && forall other :: Connects(adjacency, terminals, other) ==>
         |terminals| * |edges| <= 2 * (|terminals| - 1) * |other|
  }

  ghost predicate Lists(ids: seq<string>, s: set<string>) {
    ids == SortedTexts(s)
  }

  // What a caller of `connecting_tree` can rely on.
  ghost predicate Correct(adjacency: Adjacency, terminals: seq<string>, tree: ConnectingTree) {
    match tree.status
    case Completed =>
      exists nodes, edges ::
        && SteinerTreeOf(adjacency, terminals, nodes, edges)
        && Lists(tree.nodeIds, nodes) && Lists(tree.edgeIds, Ids(edges)) && |tree.edgeIds| == |edges|
    case Disconnected =>
      tree.nodeIds == terminals && tree.edgeIds == [] && !Spans(Edges(adjacency), terminals)
  }

  // Some number of levels exhausts the terminals' components.
  lemma {:induction false} FinishedExists(adjacency: Adjacency, terminals: seq<string>, n: nat) returns (m: nat)
    requires ValidInput(adjacency, terminals)
    ensures Finished(adjacency, terminals, m)
    decreases |Datasets(adjacency, terminals)| - |After(adjacency, terminals, n).reached.Keys|
  {
    if Finished(adjacency, terminals, n + 1) {
      m := n + 1;
    } else {
      AfterKeeps(adjacency, terminals, n);
      AfterKeeps(adjacency, terminals, n + 1);
      AfterExtends(adjacency, terminals, n, n + 1);
      Progress(After(adjacency, terminals, n), After(adjacency, terminals, n + 1), n);
      ReachedInside(adjacency, terminals, After(adjacency, terminals, n + 1));
      m := FinishedExists(adjacency, terminals, n + 1);
    }
  }

  lemma FinishedFull(adjacency: Adjacency, terminals: seq<string>, n: nat)
    requires ValidInput(adjacency, terminals) && Finished(adjacency, terminals, n)
    ensures Full(adjacency, terminals, After(adjacency, terminals, n), n)
  {
    AfterKeeps(adjacency, terminals, n);
  }

  lemma TimesMonotone(a: nat, b: int, c: int)
    requires b <= c
    ensures a * b <= a * c
  {}

  lemma TimesSum(a: int, b: int, c: int)
    ensures a * (b + c) == a * b + a * c && (a + 1) * b == a * b + b && a * (2 * b) == 2 * a * b
  {}

  lemma RatioArithmetic(t: nat, weight: nat, dearest: nat, edges: nat, other: nat)
    requires t >= 2 && edges <= weight && weight <= (t - 1) * dearest && weight + dearest <= 2 * other
    ensures t * edges <= 2 * (t - 1) * other
  {
    TimesMonotone(t, edges, weight);
    TimesSum(t - 1, weight, dearest);
    TimesMonotone(t - 1, weight + dearest, 2 * other);
    TimesSum(t - 1, other, other);
  }

  // Boundaries are chosen in increasing cost, so none is dearer than the last.
  lemma {:induction false} DearestIsLast(terminals: seq<string>, items: seq<Item>, i: nat)
    requires Ascending(items, ItemKey) && i <= |items|
    ensures var chosen := Kruskal(terminals, items[..i]).chosen;
            && Weight(chosen) <= |chosen| * Dearest(chosen)
            && (i < |items| ==> Dearest(chosen) <= items[i].1.cost)
    decreases i
  {
    if i == 0 {
    } else {
      DearestIsLast(terminals, items, i - 1);
      assert items[..i][..i - 1] == items[..i - 1];
      if i < |items| { AscendingCost(items, i - 1, i); }
      var before := Kruskal(terminals, items[..i - 1]);
      var c := items[i - 1].1;
      if Joinable(before.classes, items[i - 1].0) {
        assert (before.chosen + [c])[..|before.chosen|] == before.chosen;
        MoreAtMost(|before.chosen|, Dearest(before.chosen), c.cost);
      }
    }
  }

  lemma MoreAtMost(k: nat, low: nat, high: nat)
    requires low <= high
    ensures k * low + high <= (k + 1) * high
  {
    assert k * low <= k * high;
  }

  // The approximation bound, for every connected subgraph.
  lemma TreeBound(adjacency: Adjacency, terminals: seq<string>, r: Search, n: nat, items: seq<Item>,
                  other: set<Relationship>)
    requires Full(adjacency, terminals, r, n) && Offered(r, items) && Connects(adjacency, terminals, other)
    requires Chosen(adjacency, terminals, r, items, Kruskal(terminals, items).chosen)
    requires |Kruskal(terminals, items).chosen| + 1 == |terminals| && |terminals| >= 2
    ensures |terminals| * |TreeEdges(r, terminals, Kruskal(terminals, items).chosen)| <= 2 * (|terminals| - 1) * |other|
  {
    var chosen := Kruskal(terminals, items).chosen;
    FullSetting(adjacency, terminals, r, n, other, items);
    ChoicePaid(r, other, terminals, items);
    assert items[..|items|] == items;
    DearestIsLast(terminals, items, |items|);
    TreeWeight(adjacency, terminals, r, items, chosen);
    RatioArithmetic(|terminals|, Weight(chosen), Dearest(chosen), |TreeEdges(r, terminals, chosen)|, |other|);
  }

  // If some terminals stay apart, no relationship leaves what their class has reached.
  lemma ApartDisconnected(adjacency: Adjacency, terminals: seq<string>, n: nat)
    requires ValidInput(adjacency, terminals) && Finished(adjacency, terminals, n)
    requires |Choice(adjacency, terminals, n)| + 1 != |terminals|
    ensures !Spans(Edges(adjacency), terminals)
  {
    var r := After(adjacency, terminals, n);
    ChoiceFacts(adjacency, terminals, n);
    FinishedFull(adjacency, terminals, n);
    var items := SortedItems(r);
    var classes := Kruskal(terminals, items).classes;
    KruskalClasses(terminals, items);
    assert classes[terminals[0]] in classes.Values;
    SubsetSize({classes[terminals[0]]}, classes.Values);
    var k := Another(classes.Values, classes[terminals[0]]);
    var t :| t in classes && classes[t] == k;
    Separated(adjacency, terminals, r, n, items, terminals[0], t);
  }

  // A relationship never joins regions of different classes.
  ghost predicate InOneClass(r: Search, classes: map<string, string>, e: Relationship) {
    var u, v := e.a.nodeId, e.b.nodeId;
    u in r.reached || v in r.reached ==>
      && u in r.reached && v in r.reached
      && r.reached[u].owner in classes && r.reached[v].owner in classes
      && classes[r.reached[u].owner] == classes[r.reached[v].owner]
  }

  lemma StaysInClass(terminals: seq<string>, r: Search, items: seq<Item>, e: Relationship)
    requires Offered(r, items) && Fits(r, e)
    requires forall x :: x in r.reached ==> r.reached[x].owner in terminals
    ensures InOneClass(r, Kruskal(terminals, items).classes, e)
  {
    var u, v := e.a.nodeId, e.b.nodeId;
    KruskalKeys(terminals, items);
    if u in r.reached && r.reached[u].owner != r.reached[v].owner {
      var pair := SortedPair(r.reached[u].owner, r.reached[v].owner);
      var item := (pair, r.candidates[pair]);
      assert item in r.candidates.Items;
      OfferedJoined(terminals, items, item);
    }
  }

  lemma SideUncrossed(r: Search, classes: map<string, string>, e: Relationship, k: string, side: set<string>)
    requires InOneClass(r, classes, e)
    requires forall x ::
               x in side <==> x in r.reached && r.reached[x].owner in classes && classes[r.reached[x].owner] == k
    ensures !Crosses(e, side)
  {}

  lemma Separated(adjacency: Adjacency, terminals: seq<string>, r: Search, n: nat, items: seq<Item>, s: string,
                  t: string)
    requires Full(adjacency, terminals, r, n) && Offered(r, items) && s in terminals && t in terminals
    requires s in Kruskal(terminals, items).classes && t in Kruskal(terminals, items).classes
    requires Kruskal(terminals, items).classes[s] != Kruskal(terminals, items).classes[t]
    ensures !Connected(Edges(adjacency), s, t)
  {
    var classes := Kruskal(terminals, items).classes;
    var side := set x | x in r.reached && r.reached[x].owner in classes && classes[r.reached[x].owner] == classes[s];
    assert s in side && t !in side by {
      assert Rooted(adjacency, terminals, r, s) && Rooted(adjacency, terminals, r, t);
    }
    assert forall x :: x in r.reached ==> r.reached[x].owner in terminals by {
      assert forall x :: x in r.reached ==> Rooted(adjacency, terminals, r, x);
    }
    forall e | e in Edges(adjacency) ensures !Crosses(e, side) {
      FullFits(adjacency, terminals, r, n, e);
      StaysInClass(terminals, r, items, e);
      SideUncrossed(r, classes, e, classes[s], side);
    }
    if Connected(Edges(adjacency), s, t) {
      CutCrossed(Edges(adjacency), s, t, side);
    }
  }

  lemma IdsSize(adjacency: Adjacency, edges: set<Relationship>)
    requires WellFormed(adjacency) && edges <= Edges(adjacency)
    ensures |Ids(edges)| == |edges|
    decreases |edges|
  {
    if edges != {} {
      var e :| e in edges;
      IdsSize(adjacency, edges - {e});
      assert Ids(edges) == Ids(edges - {e}) + {e.edgeId};
      assert e.edgeId !in Ids(edges - {e});
    }
  }

  lemma TreeIsSteiner(adjacency: Adjacency, terminals: seq<string>, n: nat)
    requires ValidInput(adjacency, terminals) && Finished(adjacency, terminals, n)
    requires |Choice(adjacency, terminals, n)| + 1 == |terminals|
    ensures var r, chosen := After(adjacency, terminals, n), Choice(adjacency, terminals, n);
            SteinerTreeOf(adjacency, terminals, TreeNodes(r, terminals, chosen), TreeEdges(r, terminals, chosen))
  {
    var r, chosen := After(adjacency, terminals, n), Choice(adjacency, terminals, n);
    ChoiceFacts(adjacency, terminals, n);
    FinishedFull(adjacency, terminals, n);
    var items, nodes, edges := SortedItems(r), TreeNodes(r, terminals, chosen), TreeEdges(r, terminals, chosen);
    forall e | e in edges ensures e in Edges(adjacency) && e.a.nodeId in nodes && e.b.nodeId in nodes {
      TreeInside(adjacency, terminals, r, items, chosen, e);
    }
    assert IsTree(nodes, edges) by {
      TreeSize(adjacency, terminals, r, items, chosen);
      forall u, v | u in nodes && v in nodes ensures Connected(edges, u, v) {
        TreeConnected(adjacency, terminals, r, items, chosen, u, v);
      }
    }
    assert OnlyTerminalLeaves(terminals, nodes, edges) by {
      forall x | x in nodes && x !in terminals
        ensures exists e, f :: e in edges && f in edges && e != f && e.Touches(x) && f.Touches(x)
      {
        var e, f := NodeInnerEdges(adjacency, terminals, r, items, chosen, x);
      }
    }
    forall other | Connects(adjacency, terminals, other)
      ensures |terminals| * |edges| <= 2 * (|terminals| - 1) * |other|
    {
      TreeBound(adjacency, terminals, r, n, items, other);
    }
  }

  lemma CompletedCorrect(adjacency: Adjacency, terminals: seq<string>, nodes: set<string>, edges: set<Relationship>)
    requires WellFormed(adjacency) && SteinerTreeOf(adjacency, terminals, nodes, edges)
    ensures Correct(adjacency, terminals, ConnectingTree(Completed, SortedTexts(nodes), SortedTexts(Ids(edges))))
    ensures Spans(Edges(adjacency), terminals)
  {
    IdsSize(adjacency, edges);
    TreeSpans(Edges(adjacency), terminals, edges);
  }

  lemma TreeSpans(all: set<Relationship>, terminals: seq<string>, edges: set<Relationship>)
    requires edges <= all && forall s, t :: s in terminals && t in terminals ==> Connected(edges, s, t)
    ensures Spans(all, terminals)
  {
    forall s, t | s in terminals && t in terminals ensures Connected(all, s, t) {
      ConnectedMonotone(edges, all, s, t);
    }
  }

  // The main theorem, for a search run to its end.
  lemma ResultCorrect(adjacency: Adjacency, terminals: seq<string>, n: nat)
    requires ValidInput(adjacency, terminals) && Finished(adjacency, terminals, n)
    ensures Correct(adjacency, terminals, Result(adjacency, terminals, n))
    ensures Result(adjacency, terminals, n).status == Completed <==> Spans(Edges(adjacency), terminals)
  {
    var r, chosen := After(adjacency, terminals, n), Choice(adjacency, terminals, n);
    if |chosen| + 1 == |terminals| {
      TreeIsSteiner(adjacency, terminals, n);
      CompletedCorrect(adjacency, terminals, TreeNodes(r, terminals, chosen), TreeEdges(r, terminals, chosen));
    } else {
      ApartDisconnected(adjacency, terminals, n);
    }
  }
}
