// The tree grown from the chosen boundaries (the last part of `connecting_tree`): every boundary
// with the predecessor chains from its two ends back to their terminals.
module SteinerTree {
  import opened Order
  import opened Model
  import opened Sets
  import opened Graph
  import opened Regions
  import opened Boundaries
  import opened Moats

  // The datasets from `x` back to its terminal, the terminal left out.
  ghost function Chain(r: Search, x: string): set<string>
    decreases if x in r.reached then r.reached[x].distance else 0
  {
    if x in r.reached && r.reached[x].via.Some? then
      var p := r.reached[x].via.value.0;
      if p in r.reached && r.reached[p].distance < r.reached[x].distance then {x} + Chain(r, p) else {x}
    else {}
  }

  ghost function ChosenNodes(r: Search, chosen: seq<Candidate>): set<string> {
    if chosen == [] then {}
    else
      var c := chosen[|chosen| - 1];
      ChosenNodes(r, chosen[..|chosen| - 1]) + Chain(r, c.left) + Chain(r, c.right)
  }

  ghost function TreeNodes(r: Search, terminals: seq<string>, chosen: seq<Candidate>): set<string> {
    (set t | t in terminals) + ChosenNodes(r, chosen)
  }

  ghost function Links(r: Search, nodes: set<string>): set<Relationship> {
    set x | x in nodes && x in r.reached && r.reached[x].via.Some? :: r.reached[x].via.value.1
  }

  ghost function Borders(chosen: seq<Candidate>): set<Relationship> {
    set c | c in chosen :: c.edge
  }

  ghost function TreeEdges(r: Search, terminals: seq<string>, chosen: seq<Candidate>): set<Relationship> {
    Links(r, TreeNodes(r, terminals, chosen)) + Borders(chosen)
  }

  // ---------- chains ----------

  lemma {:induction false} ChainFacts(adjacency: Adjacency, terminals: seq<string>, r: Search, x: string)
    requires AllRooted(adjacency, terminals, r) && x in r.reached
    ensures |Chain(r, x)| <= r.reached[x].distance
    ensures x in terminals <==> Chain(r, x) == {}
    ensures forall y ::
              y in Chain(r, x) ==> y in r.reached && y !in terminals && r.reached[y].distance <= r.reached[x].distance
    decreases r.reached[x].distance
  {
    assert Rooted(adjacency, terminals, r, x);
    if x in terminals {
    } else {
      ChainFacts(adjacency, terminals, r, r.reached[x].via.value.0);
    }
  }

  // The chain is closed: it leads to the terminal through its own datasets.
  lemma {:induction false} ChainClosed(adjacency: Adjacency, terminals: seq<string>, r: Search, x: string, y: string)
    requires AllRooted(adjacency, terminals, r) && x in r.reached && y in Chain(r, x)
    ensures y in r.reached && r.reached[y].via.Some?
    ensures r.reached[y].via.value.0 in terminals || r.reached[y].via.value.0 in Chain(r, x)
    ensures Chain(r, y) <= Chain(r, x)
    decreases r.reached[x].distance
  {
    assert Rooted(adjacency, terminals, r, x);
    var p := r.reached[x].via.value.0;
    assert Rooted(adjacency, terminals, r, p);
    if y == x {
    } else {
      ChainClosed(adjacency, terminals, r, p, y);
    }
  }

  // Everything on the chain except its start is the predecessor of something on it.
  lemma {:induction false} ChainInner(adjacency: Adjacency, terminals: seq<string>, r: Search, x: string, y: string)
    returns (z: string)
    requires AllRooted(adjacency, terminals, r) && x in r.reached && y in Chain(r, x) && y != x
    ensures z in Chain(r, x) && z in r.reached && r.reached[z].via.Some? && r.reached[z].via.value.0 == y
    decreases r.reached[x].distance
  {
    assert Rooted(adjacency, terminals, r, x);
    var p := r.reached[x].via.value.0;
    if y == p {
      z := x;
    } else {
      z := ChainInner(adjacency, terminals, r, p, y);
    }
  }

  lemma {:induction false} ChainConnected(adjacency: Adjacency, terminals: seq<string>, r: Search,
                                          edges: set<Relationship>, x: string)
    requires AllRooted(adjacency, terminals, r) && x in r.reached && Links(r, Chain(r, x)) <= edges
    ensures Connected(edges, x, r.reached[x].owner)
    decreases r.reached[x].distance
  {
    assert Rooted(adjacency, terminals, r, x);
    if x in terminals {
      ConnectedRefl(edges, x);
    } else {
      var p, e := r.reached[x].via.value.0, r.reached[x].via.value.1;
      assert x in Chain(r, x) && Chain(r, p) <= Chain(r, x);
      assert e in Links(r, Chain(r, x));
      ConnectedEdge(edges, e, x, p);
      ChainConnected(adjacency, terminals, r, edges, p);
      ConnectedTrans(edges, x, p, r.reached[p].owner);
    }
  }

  // ---------- what the choice is made of ----------

  // The candidates Kruskal chose from `items`, all of them boundaries of `r`.
  ghost predicate Chosen(adjacency: Adjacency, terminals: seq<string>, r: Search, items: seq<Item>,
                         chosen: seq<Candidate>) {
    && AllRooted(adjacency, terminals, r) && NoDuplicates(terminals)
    && (forall item :: item in items ==> IsBoundary(adjacency, r, item.0, item.1))
    && chosen == Kruskal(terminals, items).chosen
  }

  lemma {:induction false} ChosenOffered(terminals: seq<string>, items: seq<Item>, c: Candidate)
    requires c in Kruskal(terminals, items).chosen
    ensures exists p :: (p, c) in items
  {
    var init, last := items[..|items| - 1], items[|items| - 1];
    if c in Kruskal(terminals, init).chosen {
      ChosenOffered(terminals, init, c);
      var p :| (p, c) in init;
      assert (p, c) in items;
    } else {
      assert (last.0, c) == last && last in items;
    }
  }

  lemma ChosenBoundary(adjacency: Adjacency, terminals: seq<string>, r: Search, items: seq<Item>,
                       chosen: seq<Candidate>, c: Candidate)
    requires Chosen(adjacency, terminals, r, items, chosen) && c in chosen
    ensures c.left in r.reached && c.right in r.reached
    ensures IsBoundary(adjacency, r, PairFor(r, c.left, c.right), c) && (PairFor(r, c.left, c.right), c) in items
  {
    ChosenOffered(terminals, items, c);
    var p :| (p, c) in items;
    assert IsBoundary(adjacency, r, (p, c).0, (p, c).1);
  }

  lemma BoundaryEnds(adjacency: Adjacency, terminals: seq<string>, r: Search, p: Pair, c: Candidate)
    requires AllRooted(adjacency, terminals, r) && IsBoundary(adjacency, r, p, c)
    ensures p.0 in terminals && p.1 in terminals
    ensures (p.0 == r.reached[c.left].owner && p.1 == r.reached[c.right].owner)
         || (p.0 == r.reached[c.right].owner && p.1 == r.reached[c.left].owner)
  {
    assert Rooted(adjacency, terminals, r, c.left) && Rooted(adjacency, terminals, r, c.right);
  }

  lemma JoinableIsNew(adjacency: Adjacency, terminals: seq<string>, r: Search, items: seq<Item>, next: Item)
    requires Chosen(adjacency, terminals, r, items, Kruskal(terminals, items).chosen)
    requires IsBoundary(adjacency, r, next.0, next.1) && Joinable(Kruskal(terminals, items).classes, next.0)
    ensures next.1.edge !in Borders(Kruskal(terminals, items).chosen)
  {
    var chosen := Kruskal(terminals, items).chosen;
    if c :| c in chosen && c.edge == next.1.edge {
      ChosenBoundary(adjacency, terminals, r, items, chosen, c);
      SameBoundary(adjacency, r, PairFor(r, c.left, c.right), c, next.0, next.1);
      BoundaryEnds(adjacency, terminals, r, next.0, next.1);
      assert next in items;
      OfferedJoined(terminals, items, next);
    }
  }

  lemma ChosenPrefix(adjacency: Adjacency, terminals: seq<string>, r: Search, items: seq<Item>)
    requires items != [] && Chosen(adjacency, terminals, r, items, Kruskal(terminals, items).chosen)
    ensures var init := items[..|items| - 1];
            Chosen(adjacency, terminals, r, init, Kruskal(terminals, init).chosen)
  {}

  // No relationship is chosen twice.
  lemma {:induction false} ChosenDistinct(adjacency: Adjacency, terminals: seq<string>, r: Search, items: seq<Item>)
    requires Chosen(adjacency, terminals, r, items, Kruskal(terminals, items).chosen)
    ensures |Borders(Kruskal(terminals, items).chosen)| == |Kruskal(terminals, items).chosen|
    decreases |items|
  {
    if items == [] {
      assert Borders([]) == {};
    } else {
      var init, last := items[..|items| - 1], items[|items| - 1];
      ChosenPrefix(adjacency, terminals, r, items);
      ChosenDistinct(adjacency, terminals, r, init);
      if Joinable(Kruskal(terminals, init).classes, last.0) {
        assert last in items;
        JoinableIsNew(adjacency, terminals, r, init, last);
        BordersSnoc(Kruskal(terminals, init).chosen, last.1);
      }
    }
  }

  lemma BordersSnoc(chosen: seq<Candidate>, c: Candidate)
    ensures Borders(chosen + [c]) == Borders(chosen) + {c.edge}
  {
    assert forall d :: d in chosen + [c] <==> d in chosen || d == c;
  }

  lemma SameBoundary(adjacency: Adjacency, r: Search, p: Pair, c: Candidate, q: Pair, d: Candidate)
    requires IsBoundary(adjacency, r, p, c) && IsBoundary(adjacency, r, q, d) && c.edge == d.edge
    ensures p == q && c == d
  {
    SortedPairSym(c.left, c.right);
  }

  // ---------- the links ----------

  // Different datasets hang by different relationships.
  lemma LinkInjective(adjacency: Adjacency, terminals: seq<string>, r: Search, x: string, y: string)
    requires AllRooted(adjacency, terminals, r) && x in r.reached && y in r.reached
    requires r.reached[x].via.Some? && r.reached[y].via.Some?
    requires r.reached[x].via.value.1 == r.reached[y].via.value.1
    ensures x == y
  {
    assert Rooted(adjacency, terminals, r, x) && Rooted(adjacency, terminals, r, y);
  }

  lemma {:induction false} LinksSize(adjacency: Adjacency, terminals: seq<string>, r: Search, nodes: set<string>)
    requires AllRooted(adjacency, terminals, r)
    requires forall x :: x in nodes ==> x in r.reached && r.reached[x].via.Some?
    ensures |Links(r, nodes)| == |nodes|
    decreases |nodes|
  {
    if nodes == {} {
    } else {
      var x :| x in nodes;
      var rest, e := nodes - {x}, r.reached[x].via.value.1;
      LinksSize(adjacency, terminals, r, rest);
      if e in Links(r, rest) {
        var y :| y in rest && y in r.reached && r.reached[y].via.Some? && r.reached[y].via.value.1 == e;
        LinkInjective(adjacency, terminals, r, x, y);
      }
      assert Links(r, nodes) == Links(r, rest) + {e};
    }
  }

  // A link stays inside a region, a boundary does not.
  lemma LinkNotBorder(adjacency: Adjacency, terminals: seq<string>, r: Search, x: string, p: Pair, c: Candidate)
    requires AllRooted(adjacency, terminals, r) && x in r.reached && r.reached[x].via.Some?
    requires IsBoundary(adjacency, r, p, c)
    ensures r.reached[x].via.value.1 != c.edge
  {
    assert Rooted(adjacency, terminals, r, x);
  }

  // ---------- the tree ----------

  ghost predicate IsTree(nodes: set<string>, edges: set<Relationship>) {
    && |edges| + 1 == |nodes|
    && (forall e :: e in edges ==> e.a.nodeId in nodes && e.b.nodeId in nodes)
    && (forall u, v :: u in nodes && v in nodes ==> Connected(edges, u, v))
  }

  // Every dataset that is not a terminal has two relationships in the tree.
  ghost predicate OnlyTerminalLeaves(terminals: seq<string>, nodes: set<string>, edges: set<Relationship>) {
    forall x :: x in nodes && x !in terminals ==>
      exists e, f :: e in edges && f in edges && e != f && e.Touches(x) && f.Touches(x)
  }

  lemma {:induction false} ChosenNodesMember(r: Search, chosen: seq<Candidate>, y: string)
    ensures y in ChosenNodes(r, chosen) <==>
              exists c :: c in chosen && (y in Chain(r, c.left) || y in Chain(r, c.right))
  {
    if chosen == [] {
    } else {
      var init, last := chosen[..|chosen| - 1], chosen[|chosen| - 1];
      ChosenNodesMember(r, init, y);
      assert chosen == init + [last];
    }
  }

  // The chain a tree dataset was added by.
  lemma OnChain(adjacency: Adjacency, terminals: seq<string>, r: Search, items: seq<Item>, chosen: seq<Candidate>,
                y: string)
    returns (c: Candidate, x: string)
    requires Chosen(adjacency, terminals, r, items, chosen) && y in ChosenNodes(r, chosen)
    ensures c in chosen && x in {c.left, c.right} && x in r.reached && y in Chain(r, x)
  {
    ChosenNodesMember(r, chosen, y);
    c :| c in chosen && (y in Chain(r, c.left) || y in Chain(r, c.right));
    x := if y in Chain(r, c.left) then c.left else c.right;
    ChosenBoundary(adjacency, terminals, r, items, chosen, c);
  }

  // Tree datasets are terminals, or hang by a link from another tree dataset.
  lemma TreeNodeFacts(adjacency: Adjacency, terminals: seq<string>, r: Search, items: seq<Item>, chosen: seq<Candidate>,
                      y: string)
    requires Chosen(adjacency, terminals, r, items, chosen) && y in TreeNodes(r, terminals, chosen)
    ensures y in r.reached && Chain(r, y) <= TreeNodes(r, terminals, chosen)
    ensures y in terminals <==> y !in ChosenNodes(r, chosen)
    ensures y !in terminals ==> r.reached[y].via.Some? && r.reached[y].via.value.0 in TreeNodes(r, terminals, chosen)
  {
    if y in ChosenNodes(r, chosen) {
      var c, x := OnChain(adjacency, terminals, r, items, chosen, y);
      ChainFacts(adjacency, terminals, r, x);
      ChainClosed(adjacency, terminals, r, x, y);
      forall z | z in Chain(r, x) ensures z in ChosenNodes(r, chosen) {
        ChosenNodesMember(r, chosen, z);
      }
    } else {
      ChainFacts(adjacency, terminals, r, y);
    }
  }

  lemma BorderEndsInTree(adjacency: Adjacency, terminals: seq<string>, r: Search, items: seq<Item>,
                         chosen: seq<Candidate>, c: Candidate)
    requires Chosen(adjacency, terminals, r, items, chosen) && c in chosen
    ensures c.left in TreeNodes(r, terminals, chosen) && c.right in TreeNodes(r, terminals, chosen)
  {
    ChosenBoundary(adjacency, terminals, r, items, chosen, c);
    forall x | x in {c.left, c.right} ensures x in TreeNodes(r, terminals, chosen) {
      assert Rooted(adjacency, terminals, r, x);
      if x !in terminals {
        assert x in Chain(r, x);
        ChosenNodesMember(r, chosen, x);
      }
    }
  }

  lemma NodeKind(adjacency: Adjacency, terminals: seq<string>, r: Search, items: seq<Item>, chosen: seq<Candidate>,
                 y: string)
    requires Chosen(adjacency, terminals, r, items, chosen) && y in TreeNodes(r, terminals, chosen)
    ensures y in r.reached && (y in ChosenNodes(r, chosen) <==> y !in terminals)
    ensures y in ChosenNodes(r, chosen) <==> r.reached[y].via.Some?
  {
    TreeNodeFacts(adjacency, terminals, r, items, chosen, y);
    assert Rooted(adjacency, terminals, r, y);
  }

  lemma NodesSplit(adjacency: Adjacency, terminals: seq<string>, r: Search, items: seq<Item>, chosen: seq<Candidate>)
    requires Chosen(adjacency, terminals, r, items, chosen)
    ensures |TreeNodes(r, terminals, chosen)| == |terminals| + |ChosenNodes(r, chosen)|
  {
    var inner, ends := ChosenNodes(r, chosen), (set t | t in terminals);
    forall y | y in inner ensures y !in ends {
      NodeKind(adjacency, terminals, r, items, chosen, y);
    }
    assert ends !! inner;
    DistinctSize(terminals);
  }

  lemma LinksSplit(adjacency: Adjacency, terminals: seq<string>, r: Search, items: seq<Item>, chosen: seq<Candidate>)
    requires Chosen(adjacency, terminals, r, items, chosen)
    ensures |Links(r, TreeNodes(r, terminals, chosen))| == |ChosenNodes(r, chosen)|
  {
    var nodes, inner := TreeNodes(r, terminals, chosen), ChosenNodes(r, chosen);
    forall y | y in nodes ensures y in r.reached && (y in inner <==> r.reached[y].via.Some?) {
      NodeKind(adjacency, terminals, r, items, chosen, y);
    }
    LinksOfInner(r, nodes, inner);
    LinksSize(adjacency, terminals, r, inner);
  }

  lemma LinksOfInner(r: Search, nodes: set<string>, inner: set<string>)
    requires inner <= nodes && forall y :: y in nodes ==> y in r.reached && (y in inner <==> r.reached[y].via.Some?)
    ensures Links(r, nodes) == Links(r, inner)
  {}

  lemma LinksApart(adjacency: Adjacency, terminals: seq<string>, r: Search, items: seq<Item>, chosen: seq<Candidate>,
                   nodes: set<string>)
    requires Chosen(adjacency, terminals, r, items, chosen)
    ensures Links(r, nodes) !! Borders(chosen)
  {
    forall e | e in Links(r, nodes) && e in Borders(chosen) ensures false {
      var x :| x in nodes && x in r.reached && r.reached[x].via.Some? && r.reached[x].via.value.1 == e;
      var c :| c in chosen && c.edge == e;
      ChosenBoundary(adjacency, terminals, r, items, chosen, c);
      LinkNotBorder(adjacency, terminals, r, x, PairFor(r, c.left, c.right), c);
    }
  }

  lemma TreeSize(adjacency: Adjacency, terminals: seq<string>, r: Search, items: seq<Item>, chosen: seq<Candidate>)
    requires Chosen(adjacency, terminals, r, items, chosen)
    ensures |TreeEdges(r, terminals, chosen)| == |TreeNodes(r, terminals, chosen)| - |terminals| + |chosen|
  {
    NodesSplit(adjacency, terminals, r, items, chosen);
    LinksSplit(adjacency, terminals, r, items, chosen);
    ChosenDistinct(adjacency, terminals, r, items);
    LinksApart(adjacency, terminals, r, items, chosen, TreeNodes(r, terminals, chosen));
  }

  lemma TreeInside(adjacency: Adjacency, terminals: seq<string>, r: Search, items: seq<Item>, chosen: seq<Candidate>,
                   e: Relationship)
    requires Chosen(adjacency, terminals, r, items, chosen) && e in TreeEdges(r, terminals, chosen)
    ensures e.a.nodeId in TreeNodes(r, terminals, chosen) && e.b.nodeId in TreeNodes(r, terminals, chosen)
    ensures e in Edges(adjacency)
  {
    if e in Borders(chosen) {
      var c :| c in chosen && c.edge == e;
      ChosenBoundary(adjacency, terminals, r, items, chosen, c);
      BorderEndsInTree(adjacency, terminals, r, items, chosen, c);
    } else {
      var nodes := TreeNodes(r, terminals, chosen);
      var x :| x in nodes && x in r.reached && r.reached[x].via.Some? && r.reached[x].via.value.1 == e;
      assert Rooted(adjacency, terminals, r, x);
      TreeNodeFacts(adjacency, terminals, r, items, chosen, x);
    }
  }

  lemma NodeConnected(adjacency: Adjacency, terminals: seq<string>, r: Search, items: seq<Item>, chosen: seq<Candidate>,
                      y: string)
    requires Chosen(adjacency, terminals, r, items, chosen) && y in TreeNodes(r, terminals, chosen)
    ensures y in r.reached && Connected(TreeEdges(r, terminals, chosen), y, r.reached[y].owner)
  {
    TreeNodeFacts(adjacency, terminals, r, items, chosen, y);
    assert Links(r, Chain(r, y)) <= Links(r, TreeNodes(r, terminals, chosen));
    ChainConnected(adjacency, terminals, r, TreeEdges(r, terminals, chosen), y);
  }

  // A chosen boundary connects the terminals of its two regions.
  lemma BorderConnects(adjacency: Adjacency, terminals: seq<string>, r: Search, items: seq<Item>,
                       chosen: seq<Candidate>, item: Item)
    requires Chosen(adjacency, terminals, r, items, chosen) && item in items && item.1 in chosen
    ensures Connected(TreeEdges(r, terminals, chosen), item.0.0, item.0.1)
  {
    var edges, c := TreeEdges(r, terminals, chosen), item.1;
    var x, y := r.reached[c.left].owner, r.reached[c.right].owner;
    BoundaryEnds(adjacency, terminals, r, item.0, c);
    BorderEndsInTree(adjacency, terminals, r, items, chosen, c);
    NodeConnected(adjacency, terminals, r, items, chosen, c.left);
    NodeConnected(adjacency, terminals, r, items, chosen, c.right);
    assert c.edge in Borders(chosen);
    ConnectedEdge(edges, c.edge, c.left, c.right);
    ConnectedSym(edges, c.left, x);
    ConnectedTrans(edges, x, c.left, c.right);
    ConnectedTrans(edges, x, c.right, y);
    ConnectedSym(edges, x, y);
  }

  // Terminals of one class are connected through the boundaries chosen so far.
  lemma {:induction false} ClassConnected(terminals: seq<string>, items: seq<Item>, edges: set<Relationship>, s: string,
                                          t: string)
    requires forall item ::
               item in items && item.1 in Kruskal(terminals, items).chosen ==> Connected(edges, item.0.0, item.0.1)
    requires s in Kruskal(terminals, items).classes && t in Kruskal(terminals, items).classes
    requires Kruskal(terminals, items).classes[s] == Kruskal(terminals, items).classes[t]
    ensures Connected(edges, s, t)
    decreases |items|
  {
    if items == [] {
      ConnectedRefl(edges, s);
    } else {
      var init, last := items[..|items| - 1], items[|items| - 1];
      var f := Kruskal(terminals, init);
      assert forall item :: item in init ==> item in items;
      if f.classes[s] == f.classes[t] {
        ClassConnected(terminals, init, edges, s, t);
      } else {
        assert last in items;
        ConnectedSym(edges, last.0.0, last.0.1);
        var a, b := if f.classes[s] == f.classes[last.0.0] then last.0.0 else last.0.1,
                    if f.classes[s] == f.classes[last.0.0] then last.0.1 else last.0.0;
        ClassConnected(terminals, init, edges, s, a);
        ClassConnected(terminals, init, edges, b, t);
        ConnectedTrans(edges, s, a, b);
        ConnectedTrans(edges, s, b, t);
      }
    }
  }

  lemma TreeConnected(adjacency: Adjacency, terminals: seq<string>, r: Search, items: seq<Item>, chosen: seq<Candidate>,
                      u: string, v: string)
    requires Chosen(adjacency, terminals, r, items, chosen) && |chosen| + 1 == |terminals|
    requires u in TreeNodes(r, terminals, chosen) && v in TreeNodes(r, terminals, chosen)
    ensures Connected(TreeEdges(r, terminals, chosen), u, v)
  {
    var edges := TreeEdges(r, terminals, chosen);
    NodeConnected(adjacency, terminals, r, items, chosen, u);
    NodeConnected(adjacency, terminals, r, items, chosen, v);
    var s, t := r.reached[u].owner, r.reached[v].owner;
    assert Rooted(adjacency, terminals, r, u) && Rooted(adjacency, terminals, r, v);
    KruskalClasses(terminals, items);
    OneClass(Kruskal(terminals, items).classes, s, t);
    forall item | item in items && item.1 in chosen ensures Connected(edges, item.0.0, item.0.1) {
      BorderConnects(adjacency, terminals, r, items, chosen, item);
    }
    ClassConnected(terminals, items, edges, s, t);
    ConnectedSym(edges, v, t);
    ConnectedTrans(edges, u, s, t);
    ConnectedTrans(edges, u, t, v);
  }

  lemma OneClass(classes: map<string, string>, s: string, t: string)
    requires |classes.Values| <= 1 && s in classes && t in classes
    ensures classes[s] == classes[t]
  {
    SubsetSize({classes[s], classes[t]}, classes.Values);
  }

  lemma NodeInnerEdges(adjacency: Adjacency, terminals: seq<string>, r: Search, items: seq<Item>,
                       chosen: seq<Candidate>, y: string)
    returns (e: Relationship, f: Relationship)
    requires Chosen(adjacency, terminals, r, items, chosen) && y in ChosenNodes(r, chosen)
    ensures e in TreeEdges(r, terminals, chosen) && f in TreeEdges(r, terminals, chosen)
    ensures e != f && e.Touches(y) && f.Touches(y)
  {
    var c, x := OnChain(adjacency, terminals, r, items, chosen, y);
    ChosenBoundary(adjacency, terminals, r, items, chosen, c);
    TreeNodeFacts(adjacency, terminals, r, items, chosen, y);
    assert Rooted(adjacency, terminals, r, y);
    e := r.reached[y].via.value.1;
    if y == x {
      f := c.edge;
      LinkNotBorder(adjacency, terminals, r, y, PairFor(r, c.left, c.right), c);
    } else {
      var z := ChainInner(adjacency, terminals, r, x, y);
      ChosenNodesMember(r, chosen, z);
      assert Rooted(adjacency, terminals, r, z);
      f := r.reached[z].via.value.1;
      if e == f {
        LinkInjective(adjacency, terminals, r, y, z);
      }
    }
  }

  lemma {:induction false} ChosenNodesWeight(adjacency: Adjacency, terminals: seq<string>, r: Search,
                                             chosen: seq<Candidate>)
    requires AllRooted(adjacency, terminals, r)
    requires forall c :: c in chosen ==>
               && c.left in r.reached && c.right in r.reached
               && c.cost == r.reached[c.left].distance + 1 + r.reached[c.right].distance
    ensures |ChosenNodes(r, chosen)| + |chosen| <= Weight(chosen)
    decreases |chosen|
  {
    if chosen == [] {
    } else {
      var init, c := chosen[..|chosen| - 1], chosen[|chosen| - 1];
      assert chosen == init + [c];
      ChosenNodesWeight(adjacency, terminals, r, init);
      ChainFacts(adjacency, terminals, r, c.left);
      ChainFacts(adjacency, terminals, r, c.right);
      UnionSize(ChosenNodes(r, init), Chain(r, c.left));
      UnionSize(ChosenNodes(r, init) + Chain(r, c.left), Chain(r, c.right));
    }
  }

  lemma UnionSize<T>(s: set<T>, t: set<T>)
    ensures |s + t| <= |s| + |t|
  {
    assert s + t == s + (t - s);
    SubsetSize(t - s, t);
  }

  // The tree has no more relationships than the boundaries weigh.
  lemma TreeWeight(adjacency: Adjacency, terminals: seq<string>, r: Search, items: seq<Item>, chosen: seq<Candidate>)
    requires Chosen(adjacency, terminals, r, items, chosen)
    ensures |TreeEdges(r, terminals, chosen)| <= Weight(chosen)
  {
    TreeSize(adjacency, terminals, r, items, chosen);
    forall c | c in chosen
      ensures
        && c.left in r.reached && c.right in r.reached
        && c.cost == r.reached[c.left].distance + 1 + r.reached[c.right].distance
    {
      ChosenBoundary(adjacency, terminals, r, items, chosen, c);
    }
    ChosenNodesWeight(adjacency, terminals, r, chosen);
    DistinctSize(terminals);
    UnionSize((set t | t in terminals), ChosenNodes(r, chosen));
  }
}
