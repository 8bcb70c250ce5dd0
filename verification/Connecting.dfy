// `connecting_tree`: breadth-first regions with early stopping, Kruskal over their boundaries,
// and the tree grown from the chosen ones.
module Connecting {
  import opened Order
  import opened Model
  import opened Sets
  import opened UnionFind
  import opened Regions
  import opened Boundaries
  import opened Moats
  import opened EarlyStop
  import opened SteinerTree
  import opened ConnectingResult
  import opened ConnectingTheorems

  function CostWithin(item: Item, maxCost: Option<nat>): bool {
    maxCost.Some? ==> item.1.cost <= maxCost.value
  }

  ghost function Within(candidates: map<Pair, Candidate>, maxCost: Option<nat>): set<Item> {
    set item | item in candidates.Items && CostWithin(item, maxCost)
  }

  ghost function Spanning(terminals: seq<string>, items: seq<Item>): Option<seq<Candidate>> {
    var chosen := Kruskal(terminals, items).chosen;
    if |chosen| + 1 == |terminals| then Some(chosen) else None
  }

  // `kept` are the items within the cost, and they come first.
  ghost predicate Cut(items: seq<Item>, kept: seq<Item>, maxCost: Option<nat>) {
    kept <= items && forall i {:trigger items[i]} :: 0 <= i < |items| ==>
        (i < |kept| <==> CostWithin(items[i], maxCost))
  }

  lemma WithinCuts(candidates: map<Pair, Candidate>, maxCost: Option<nat>)
    requires Distinguishes(ItemKey, candidates.Items)
    ensures Cut(Sorted(candidates.Items, ItemKey), Sorted(Within(candidates, maxCost), ItemKey), maxCost)
  {
    var all, within := candidates.Items, Within(candidates, maxCost);
    forall x, y | x in within && y in all && y !in within ensures Leq(ItemKey(x), ItemKey(y)) {
      CheaperFirst(x.1, y.1);
    }
    SortedPrefix(within, all, ItemKey);
    var items, kept := Sorted(all, ItemKey), Sorted(within, ItemKey);
    forall i | 0 <= i < |items| ensures i < |kept| <==> CostWithin(items[i], maxCost) {
      InPrefix(items, kept, i);
      assert items[i] in all && (items[i] in kept <==> items[i] in within);
    }
  }

  lemma InPrefix<T>(items: seq<T>, kept: seq<T>, i: nat)
    requires NoDuplicates(items) && kept <= items && i < |items|
    ensures items[i] in kept <==> i < |kept|
  {}

  lemma CutNext(items: seq<Item>, kept: seq<Item>, maxCost: Option<nat>, i: nat)
    requires Cut(items, kept, maxCost) && i <= |kept| && i < |items|
    ensures CostWithin(items[i], maxCost) <==> i < |kept|
    ensures i < |kept| ==> items[..i + 1] <= kept
    ensures i == |kept| ==> items[..i] == kept
  {}

  lemma KruskalNext(terminals: seq<string>, items: seq<Item>, i: nat)
    requires i < |items|
    ensures Kruskal(terminals, items[..i + 1]) == Choose(Kruskal(terminals, items[..i]), items[i])
    ensures forall t :: t in Kruskal(terminals, items[..i]).classes <==> t in terminals
  {
    assert items[..i + 1][..i] == items[..i];
    KruskalKeys(terminals, items[..i]);
  }

  // Kruskal with a union-find; None until the candidates connect every terminal.
  method SpanningBoundaries(candidates: map<Pair, Candidate>, terminals: seq<string>, maxCost: Option<nat>)
    returns (boundaries: Option<seq<Candidate>>)
    requires Distinguishes(ItemKey, candidates.Items) && NoDuplicates(terminals) && |terminals| >= 2
    requires forall p :: p in candidates ==> p.0 in terminals && p.1 in terminals
    ensures boundaries == Spanning(terminals, Sorted(Within(candidates, maxCost), ItemKey))
  {
    var items := Sorted(candidates.Items, ItemKey);
    WithinCuts(candidates, maxCost);
    boundaries := JoinInOrder(items, terminals, maxCost, Sorted(Within(candidates, maxCost), ItemKey));
  }

  // What the loop over the sorted candidates keeps, `f` being Kruskal's forest so far.
  ghost predicate InStep(sets: DisjointSets, terminals: seq<string>, items: seq<Item>, i: nat, f: Forest)
    reads sets
    requires i <= |items|
  {
    sets.Valid() && Agree(sets.Classes(), f.classes) && f == Kruskal(terminals, items[..i])
  }

  // Join the ends of one candidate.
  method JoinItem(sets: DisjointSets, terminals: seq<string>, items: seq<Item>, i: nat, ghost f: Forest)
    returns (joined: bool, ghost f': Forest)
    requires i < |items| && InStep(sets, terminals, items, i, f)
    requires items[i].0.0 in terminals && items[i].0.1 in terminals
    modifies sets
    ensures InStep(sets, terminals, items, i + 1, f')
    ensures f'.chosen == if joined then f.chosen + [items[i].1] else f.chosen
  {
    var pair := items[i].0;
    KruskalNext(terminals, items, i);
    KruskalKeys(terminals, items[..i]);
    ghost var before := sets.Classes();
    joined := sets.Join(pair.0, pair.1);
    AgreeChoose(before, sets.Classes(), f, items[i]);
    f' := Choose(f, items[i]);
  }

  // A forest that joins everything is that of all the candidates kept.
  lemma AllJoined(terminals: seq<string>, items: seq<Item>, kept: seq<Item>, i: nat, f: Forest)
    requires NoDuplicates(terminals) && i <= |items| && items[..i] <= kept && f == Kruskal(terminals, items[..i])
    requires |f.chosen| + 1 == |terminals|
    ensures Spanning(terminals, kept) == Some(f.chosen)
  {
    KruskalStops(terminals, items[..i], kept);
  }

  // Having gone through the candidates kept, terminals are still apart.
  lemma StillApart(terminals: seq<string>, items: seq<Item>, kept: seq<Item>, i: nat, f: Forest)
    requires i <= |items| && items[..i] == kept && f == Kruskal(terminals, items[..i]) && |f.chosen| + 1 < |terminals|
    ensures Spanning(terminals, kept) == None
  {}

  method JoinInOrder(items: seq<Item>, terminals: seq<string>, maxCost: Option<nat>, ghost kept: seq<Item>)
    returns (boundaries: Option<seq<Candidate>>)
    requires Cut(items, kept, maxCost) && NoDuplicates(terminals) && |terminals| >= 2
    requires forall item :: item in items ==> item.0.0 in terminals && item.0.1 in terminals
    ensures boundaries == Spanning(terminals, kept)
  {
    var sets := new DisjointSets(terminals);
    var chosen: seq<Candidate> := [];
    ghost var f := Kruskal(terminals, []);
    var i := 0;
    assert items[..0] == [];
    while i < |items|
      invariant i <= |items| && i <= |kept| && fresh(sets)
      invariant InStep(sets, terminals, items, i, f) && chosen == f.chosen && |chosen| + 1 < |terminals|
    {
      var candidate := items[i].1;
      CutNext(items, kept, maxCost, i);
      if maxCost.Some? && candidate.cost > maxCost.value {
        StillApart(terminals, items, kept, i, f);
        return None;
      }
      assert items[i] in items;
      var joined;
      joined, f := JoinItem(sets, terminals, items, i, f);
      i := i + 1;
      if joined {
        chosen := chosen + [candidate];
        if |chosen| == |terminals| - 1 {
          AllJoined(terminals, items, kept, i, f);
          return Some(chosen);
        }
      }
    }
    CutEnds(items, kept, maxCost, i);
    StillApart(terminals, items, kept, i, f);
    return None;
  }

  lemma CutEnds(items: seq<Item>, kept: seq<Item>, maxCost: Option<nat>, i: nat)
    requires Cut(items, kept, maxCost) && i == |items| && i <= |kept|
    ensures items[..i] == kept
  {}

  // Two maps that put the same terminals together.
  ghost predicate Agree(a: map<string, string>, b: map<string, string>) {
    a.Keys == b.Keys && forall x, y :: x in a && y in a ==> (a[x] == a[y] <==> b[x] == b[y])
  }

  lemma AgreeChoose(a: map<string, string>, a': map<string, string>, f: Forest, item: Item)
    requires Agree(a, f.classes) && Joined(a, a', item.0.0, item.0.1)
    ensures Agree(a', Choose(f, item).classes)
    ensures Joinable(f.classes, item.0) <==> a[item.0.0] != a[item.0.1]
  {}

  lemma VisitAllSnoc(r: Search, visits: seq<Step>, v: Step)
    ensures VisitAll(r, visits + [v]) == VisitStep(VisitAll(r, visits), v)
  {
    assert (visits + [v])[..|visits|] == visits;
  }

  lemma {:induction false} VisitAllAppend(r: Search, first: seq<Step>, second: seq<Step>)
    ensures VisitAll(r, first + second) == VisitAll(VisitAll(r, first), second)
  {
    if second == [] {
      assert first + second == first;
    } else {
      var init, last := second[..|second| - 1], second[|second| - 1];
      VisitAllAppend(r, first, init);
      VisitAllSnoc(r, first + init, last);
      assert first + second == first + init + [last];
    }
  }

  lemma VisitsNext(adjacency: Adjacency, r: Search, frontier: seq<string>, i: nat)
    requires i < |frontier|
    ensures VisitAll(r, Visits(adjacency, frontier[..i + 1]))
         == VisitAll(VisitAll(r, Visits(adjacency, frontier[..i])),
                     VisitsOf(frontier[i], Incident(adjacency, frontier[i])))
  {
    assert frontier[..i + 1][..i] == frontier[..i];
    VisitAllAppend(r, Visits(adjacency, frontier[..i]), VisitsOf(frontier[i], Incident(adjacency, frontier[i])));
  }

  lemma VisitsOfNext(r: Search, node: string, edges: seq<Relationship>, j: nat)
    requires j < |edges|
    ensures VisitAll(r, VisitsOf(node, edges[..j + 1]))
         == VisitStep(VisitAll(r, VisitsOf(node, edges[..j])), (node, edges[j]))
  {
    VisitAllSnoc(r, VisitsOf(node, edges[..j]), (node, edges[j]));
    assert VisitsOf(node, edges[..j + 1]) == VisitsOf(node, edges[..j]) + [(node, edges[j])];
  }

  ghost predicate Keeps(before: map<string, Reached>, reached: map<string, Reached>) {
    forall x :: x in before ==> x in reached && reached[x] == before[x]
  }

  lemma LookedAcross(r: Search, current: string, edge: Relationship, level: nat)
    requires current in r.reached && r.reached[current].distance == level && edge.Touches(current)
    ensures var r' := VisitStep(r, (current, edge));
            && Extends(r, r')
            && ((forall x :: x in r.reached ==> r.reached[x].distance <= level + 1) ==>
                  Seen(r', current, edge.Opposite(current).nodeId, edge))
  {
    VisitExtends(r, current, edge.Opposite(current).nodeId, edge);
    if forall x :: x in r.reached ==> r.reached[x].distance <= level + 1 {
      VisitSees(r, current, edge.Opposite(current).nodeId, edge);
    }
  }

  // Look across one relationship: afterwards both of its ends are reached, and if they lie in different
  // regions these have a boundary no dearer than it; nothing reached is given up.
  method LookAcross(r: Search, current: string, edge: Relationship, level: nat) returns (r': Search)
    requires current in r.reached && r.reached[current].distance == level && edge.Touches(current)
    ensures r' == VisitStep(r, (current, edge)) && Keeps(r.reached, r'.reached) && Extends(r, r')
    ensures (forall x :: x in r.reached ==> r.reached[x].distance <= level + 1) ==>
              Seen(r', current, edge.Opposite(current).nodeId, edge)
  {
    LookedAcross(r, current, edge, level);
    var reached, candidates, following := r.reached, r.candidates, r.following;
    var other := edge.Opposite(current).nodeId;
    if other !in reached {
      reached := reached[other := Reached(reached[current].owner, level + 1, Some((current, edge)))];
      following := following + [other];
    } else if reached[other].owner != reached[current].owner {
      var ends := SortedPair(current, other);
      var pair := SortedPair(reached[current].owner, reached[other].owner);
      var cost := reached[current].distance + 1 + reached[other].distance;
      var candidate := Candidate(cost, edge.edgeId, ends.0, ends.1, edge);
      if pair !in candidates || !NoDearer(candidates[pair], candidate) {
        candidates := candidates[pair := candidate];
      }
    }
    r' := Search(reached, candidates, following);
  }

  // Look across every relationship of one dataset.
  method VisitDataset(start: Search, current: string, edges: seq<Relationship>, level: nat) returns (end: Search)
    requires current in start.reached && start.reached[current].distance == level
    requires forall e :: e in edges ==> e.Touches(current)
    ensures end == VisitAll(start, VisitsOf(current, edges)) && Keeps(start.reached, end.reached)
  {
    end := start;
    for j := 0 to |edges|
      invariant end == VisitAll(start, VisitsOf(current, edges[..j])) && Keeps(start.reached, end.reached)
    {
      VisitsOfNext(start, current, edges, j);
      end := LookAcross(end, current, edges[j], level);
    }
    assert edges[..|edges|] == edges;
  }

  // One level of the search.
  method VisitLevel(adjacency: Adjacency, start: Search, level: nat) returns (end: Search)
    requires WellFormed(adjacency)
    requires forall u :: u in start.following ==> u in start.reached && start.reached[u].distance == level
    ensures end == NextLevel(adjacency, start)
  {
    var frontier := start.following;
    ghost var begun := start.(following := []);
    end := start.(following := []);
    for i := 0 to |frontier|
      invariant Keeps(start.reached, end.reached)
      invariant end == VisitAll(begun, Visits(adjacency, frontier[..i]))
    {
      VisitsNext(adjacency, begun, frontier, i);
      assert frontier[i] in frontier;
      IncidentFacts(adjacency, frontier[i]);
      end := VisitDataset(end, frontier[i], Incident(adjacency, frontier[i]), level);
    }
    assert frontier[..|frontier|] == frontier;
  }

  lemma IncidentFacts(adjacency: Adjacency, node: string)
    requires WellFormed(adjacency)
    ensures forall e :: e in Incident(adjacency, node) ==> e.Touches(node)
  {}

  // ---------- growing the tree ----------

  ghost function LinkIds(r: Search, nodes: set<string>): set<string> {
    Ids(Links(r, nodes))
  }

  lemma LinkIdsUnion(r: Search, a: set<string>, b: set<string>)
    ensures LinkIds(r, a + b) == LinkIds(r, a) + LinkIds(r, b)
  {
    assert Links(r, a + b) == Links(r, a) + Links(r, b);
  }

  lemma ChainStep(adjacency: Adjacency, terminals: seq<string>, r: Search, x: string)
    requires AllRooted(adjacency, terminals, r) && x in r.reached && x !in terminals
    ensures r.reached[x].via.Some? && r.reached[x].via.value.0 in r.reached
    ensures r.reached[r.reached[x].via.value.0].distance < r.reached[x].distance
    ensures Chain(r, x) == {x} + Chain(r, r.reached[x].via.value.0)
    ensures LinkIds(r, {x}) == {r.reached[x].via.value.1.edgeId}
  {
    assert Rooted(adjacency, terminals, r, x);
    assert Links(r, {x}) == {r.reached[x].via.value.1};
  }

  lemma LinkIdsMonotone(r: Search, a: set<string>, b: set<string>)
    requires a <= b
    ensures LinkIds(r, a) <= LinkIds(r, b)
  {}

  // Back from `start` to `current`, with the datasets passed on the way.
  ghost predicate Walked(r: Search, start: string, walked: set<string>, current: string) {
    && start in r.reached && current in r.reached && Chain(r, start) == walked + Chain(r, current)
    && forall y :: y in walked ==> y in r.reached && r.reached[current].distance < r.reached[y].distance
  }

  lemma WalkedOn(adjacency: Adjacency, terminals: seq<string>, r: Search, start: string, walked: set<string>,
                 current: string)
    requires AllRooted(adjacency, terminals, r) && Walked(r, start, walked, current) && current !in terminals
    ensures r.reached[current].via.Some?
    ensures Walked(r, start, walked + {current}, r.reached[current].via.value.0)
    ensures r.reached[r.reached[current].via.value.0].distance < r.reached[current].distance
    ensures LinkIds(r, walked + {current}) == LinkIds(r, walked) + {r.reached[current].via.value.1.edgeId}
  {
    ChainStep(adjacency, terminals, r, current);
    var previous := r.reached[current].via.value.0;
    assert Chain(r, start) == walked + ({current} + Chain(r, previous));
    LinkIdsUnion(r, walked, {current});
  }

  ghost predicate Added(r: Search, nodes: set<string>, edgeIds: set<string>, nodes': set<string>, edgeIds': set<string>,
                        walked: set<string>) {
    nodes' == nodes + walked && edgeIds' == edgeIds + LinkIds(r, walked)
  }

  lemma AddedOn(r: Search, nodes: set<string>, edgeIds: set<string>, nodes': set<string>, edgeIds': set<string>,
                walked: set<string>, current: string, id: string)
    requires Added(r, nodes, edgeIds, nodes', edgeIds', walked)
    requires LinkIds(r, walked + {current}) == LinkIds(r, walked) + {id}
    ensures Added(r, nodes, edgeIds, nodes' + {current}, edgeIds' + {id}, walked + {current})
  {}

  // Arrived at a dataset of the tree, whose own chain is in it already.
  lemma WalkEnds(r: Search, nodes: set<string>, edgeIds: set<string>, nodes': set<string>, edgeIds': set<string>,
                 start: string, walked: set<string>, current: string)
    requires Walked(r, start, walked, current) && Added(r, nodes, edgeIds, nodes', edgeIds', walked)
    requires current in nodes' && Closed(r, nodes) && LinkIds(r, nodes) <= edgeIds
    ensures nodes' == nodes + Chain(r, start) && edgeIds' == edgeIds + LinkIds(r, Chain(r, start))
  {
    assert current in nodes;
    assert Chain(r, current) <= nodes;
    LinkIdsMonotone(r, Chain(r, current), nodes);
    LinkIdsUnion(r, walked, Chain(r, current));
  }

  // Add the chain of `start`, stopping at the first dataset the tree already has.
  method AddChain(ghost adjacency: Adjacency, terminals: seq<string>, r: Search, nodes: set<string>,
                  edgeIds: set<string>, start: string)
    returns (nodes': set<string>, edgeIds': set<string>)
    requires AllRooted(adjacency, terminals, r) && start in r.reached
    requires Closed(r, nodes) && (forall t :: t in terminals ==> t in nodes) && LinkIds(r, nodes) <= edgeIds
    ensures nodes' == nodes + Chain(r, start) && edgeIds' == edgeIds + LinkIds(r, Chain(r, start))
  {
    nodes', edgeIds' := nodes, edgeIds;
    var current := start;
    ghost var walked: set<string> := {};
    assert LinkIds(r, {}) == {};
    while current !in nodes'
      invariant Walked(r, start, walked, current)
      invariant Added(r, nodes, edgeIds, nodes', edgeIds', walked)
      decreases if current in r.reached then r.reached[current].distance else 0
    {
      WalkedOn(adjacency, terminals, r, start, walked, current);
      AddedOn(r, nodes, edgeIds, nodes', edgeIds', walked, current, r.reached[current].via.value.1.edgeId);
      walked := walked + {current};
      nodes' := nodes' + {current};
      var (previous, edge) := r.reached[current].via.value;
      current := previous;
      edgeIds' := edgeIds' + {edge.edgeId};
    }
    WalkEnds(r, nodes, edgeIds, nodes', edgeIds', start, walked, current);
  }

  lemma ClosedMore(adjacency: Adjacency, terminals: seq<string>, r: Search, nodes: set<string>, x: string)
    requires AllRooted(adjacency, terminals, r) && Closed(r, nodes) && x in r.reached
    ensures Closed(r, nodes + Chain(r, x))
  {
    forall y | y in Chain(r, x) ensures y in r.reached && Chain(r, y) <= Chain(r, x) {
      ChainClosed(adjacency, terminals, r, x, y);
    }
  }

  ghost function BorderIds(chosen: seq<Candidate>): set<string> {
    set c | c in chosen :: c.edge.edgeId
  }

  lemma GrownIds(r: Search, terminals: seq<string>, chosen: seq<Candidate>)
    ensures Ids(TreeEdges(r, terminals, chosen)) == LinkIds(r, TreeNodes(r, terminals, chosen)) + BorderIds(chosen)
  {
    var a, b := Links(r, TreeNodes(r, terminals, chosen)), Borders(chosen);
    assert Ids(a + b) == Ids(a) + Ids(b);
    assert Ids(b) == BorderIds(chosen) by {
      forall c | c in chosen ensures c.edge.edgeId in Ids(b) {
        assert c.edge in b;
      }
    }
  }

  lemma GrownNext(r: Search, terminals: seq<string>, chosen: seq<Candidate>, c: Candidate)
    ensures TreeNodes(r, terminals, chosen + [c])
         == TreeNodes(r, terminals, chosen) + Chain(r, c.left) + Chain(r, c.right)
    ensures BorderIds(chosen + [c]) == BorderIds(chosen) + {c.edge.edgeId}
  {
    assert (chosen + [c])[..|chosen|] == chosen;
    assert forall d :: d in chosen + [c] <==> d in chosen || d == c;
  }

  lemma GrownStart(adjacency: Adjacency, terminals: seq<string>, r: Search)
    requires AllRooted(adjacency, terminals, r)
    ensures TreeNodes(r, terminals, []) == (set t | t in terminals)
    ensures LinkIds(r, set t | t in terminals) == {} && BorderIds([]) == {}
  {
    forall t | t in terminals ensures t in r.reached && r.reached[t].via.None? {
      assert Rooted(adjacency, terminals, r, t);
    }
    assert Links(r, set t | t in terminals) == {};
  }

  // The union of the chosen boundaries and the chains from their ends.
  method GrowTree(ghost adjacency: Adjacency, terminals: seq<string>, r: Search, chosen: seq<Candidate>)
    returns (nodes: set<string>, edgeIds: set<string>)
    requires AllRooted(adjacency, terminals, r)
    requires forall c :: c in chosen ==> c.left in r.reached && c.right in r.reached && c.edgeId == c.edge.edgeId
    ensures nodes == TreeNodes(r, terminals, chosen) && edgeIds == Ids(TreeEdges(r, terminals, chosen))
  {
    nodes, edgeIds := (set t | t in terminals), {};
    GrownStart(adjacency, terminals, r);
    for i := 0 to |chosen|
      invariant nodes == TreeNodes(r, terminals, chosen[..i])
      invariant edgeIds == LinkIds(r, nodes) + BorderIds(chosen[..i])
    {
      var c := chosen[i];
      assert c in chosen && chosen[..i + 1] == chosen[..i] + [c];
      nodes, edgeIds := AddBoundary(adjacency, terminals, r, chosen[..i], nodes, edgeIds, c);
    }
    assert chosen[..|chosen|] == chosen;
    GrownIds(r, terminals, chosen);
  }

  method AddBoundary(ghost adjacency: Adjacency, terminals: seq<string>, r: Search, ghost chosen: seq<Candidate>,
                     nodes: set<string>, edgeIds: set<string>, c: Candidate)
    returns (nodes': set<string>, edgeIds': set<string>)
    requires AllRooted(adjacency, terminals, r)
    requires forall d :: d in chosen + [c] ==> d.left in r.reached && d.right in r.reached && d.edgeId == d.edge.edgeId
    requires nodes == TreeNodes(r, terminals, chosen) && edgeIds == LinkIds(r, nodes) + BorderIds(chosen)
    ensures nodes' == TreeNodes(r, terminals, chosen + [c])
    ensures edgeIds' == LinkIds(r, nodes') + BorderIds(chosen + [c])
  {
    assert c in chosen + [c] && forall d :: d in chosen ==> d in chosen + [c];
    assert Closed(r, nodes) by { TreeNodesClosed(adjacency, terminals, r, chosen); }
    assert Closed(r, nodes + Chain(r, c.left)) by { ClosedMore(adjacency, terminals, r, nodes, c.left); }
    GrownBoth(r, terminals, chosen, nodes, edgeIds, c);
    nodes', edgeIds' := AddChain(adjacency, terminals, r, nodes, edgeIds + {c.edgeId}, c.left);
    nodes', edgeIds' := AddChain(adjacency, terminals, r, nodes', edgeIds', c.right);
  }

  lemma GrownBoth(r: Search, terminals: seq<string>, chosen: seq<Candidate>, nodes: set<string>, edgeIds: set<string>,
                  c: Candidate)
    requires nodes == TreeNodes(r, terminals, chosen) && edgeIds == LinkIds(r, nodes) + BorderIds(chosen)
    ensures var more, ids := nodes + Chain(r, c.left), edgeIds + {c.edge.edgeId} + LinkIds(r, Chain(r, c.left));
            && LinkIds(r, more) <= ids
            && TreeNodes(r, terminals, chosen + [c]) == more + Chain(r, c.right)
            && ids + LinkIds(r, Chain(r, c.right)) == LinkIds(r, more + Chain(r, c.right)) + BorderIds(chosen + [c])
  {
    LinkIdsUnion(r, nodes, Chain(r, c.left));
    LinkIdsUnion(r, nodes + Chain(r, c.left), Chain(r, c.right));
    GrownNext(r, terminals, chosen, c);
  }

  // ---------- the whole search ----------

  lemma CandidateTerminals(adjacency: Adjacency, terminals: seq<string>, r: Search)
    requires AllRooted(adjacency, terminals, r) && AllBoundaries(adjacency, r)
    ensures forall p :: p in r.candidates ==> p.0 in terminals && p.1 in terminals
  {
    forall p | p in r.candidates ensures p.0 in terminals && p.1 in terminals {
      BoundaryEnds(adjacency, terminals, r, p, r.candidates[p]);
    }
  }

  lemma AllWithin(r: Search, maxCost: Option<nat>, n: nat)
    requires Layered(r, n) && (maxCost.Some? ==> maxCost.value >= 2 * n)
    ensures Within(r.candidates, maxCost) == r.candidates.Items
  {}

  // The boundaries found so far; `maxCost` is never exceeded.
  method FindBoundaries(adjacency: Adjacency, terminals: seq<string>, r: Search, maxCost: Option<nat>, ghost n: nat)
    returns (boundaries: Option<seq<Candidate>>)
    requires ValidInput(adjacency, terminals) && r == After(adjacency, terminals, n)
    requires maxCost.Some? ==> maxCost.value >= 2 * n
    ensures boundaries ==
              if |Choice(adjacency, terminals, n)| + 1 == |terminals| then Some(Choice(adjacency, terminals, n))
              else None
  {
    assert Distinguishes(ItemKey, r.candidates.Items) by { ChoiceFacts(adjacency, terminals, n); }
    assert Valid(adjacency, terminals, r, n) by { AfterKeeps(adjacency, terminals, n); }
    CandidateTerminals(adjacency, terminals, r);
    AllWithin(r, maxCost, n);
    boundaries := SpanningBoundaries(r.candidates, terminals, maxCost);
  }

  // `connecting_tree`: the result is that of a search never stopped early.
  method ConnectTerminals(adjacency: Adjacency, terminals: seq<string>) returns (tree: ConnectingTree)
    requires ValidInput(adjacency, terminals)
    ensures forall n: nat :: Finished(adjacency, terminals, n) ==> tree == Result(adjacency, terminals, n)
    ensures Correct(adjacency, terminals, tree)
    ensures tree.status == Completed <==> Spans(Edges(adjacency), terminals)
  {
    ghost var end := FinishedExists(adjacency, terminals, 0);
    ResultCorrect(adjacency, terminals, end);
    var r, level := Search(Terminals(terminals), map[], terminals), 0;
    var boundaries: Option<seq<Candidate>> := None;
    while r.following != []
      invariant r == After(adjacency, terminals, level) && boundaries == None
      decreases |Datasets(adjacency, terminals)| - |r.reached.Keys|, |r.following|
    {
      r := ExpandLevel(adjacency, terminals, r, level);
      boundaries := FindBoundaries(adjacency, terminals, r, Some(2 * level + 2), level + 1);
      if boundaries.Some? {
        EarlyEnd(adjacency, terminals, level);
        level := level + 1;
        break;
      }
      level := level + 1;
    }
    if boundaries.None? {
      boundaries := FindBoundaries(adjacency, terminals, r, None, level);
      FullEnd(adjacency, terminals, level);
    }
    if boundaries.None? {
      return ConnectingTree(Disconnected, terminals, []);
    }
    tree := Present(adjacency, terminals, r, boundaries.value, level);
  }

  method Present(ghost adjacency: Adjacency, terminals: seq<string>, r: Search, chosen: seq<Candidate>, ghost n: nat)
    returns (tree: ConnectingTree)
    requires ValidInput(adjacency, terminals) && r == After(adjacency, terminals, n)
    requires chosen == Choice(adjacency, terminals, n) && |chosen| + 1 == |terminals|
    ensures tree == Result(adjacency, terminals, n)
  {
    ChoiceFacts(adjacency, terminals, n);
    var nodes, edgeIds := GrowTree(adjacency, terminals, r, chosen);
    return ConnectingTree(Completed, SortedTexts(nodes), SortedTexts(edgeIds));
  }

  method ExpandLevel(adjacency: Adjacency, terminals: seq<string>, r: Search, level: nat) returns (r': Search)
    requires ValidInput(adjacency, terminals) && r == After(adjacency, terminals, level)
    ensures r' == After(adjacency, terminals, level + 1)
    ensures |r'.reached.Keys| <= |Datasets(adjacency, terminals)|
    ensures r'.following != [] ==> |r.reached.Keys| < |r'.reached.Keys|
    ensures |r.reached.Keys| <= |r'.reached.Keys|
  {
    AfterKeeps(adjacency, terminals, level);
    r' := VisitLevel(adjacency, r, level);
    AfterKeeps(adjacency, terminals, level + 1);
    AfterExtends(adjacency, terminals, level, level + 1);
    ReachedInside(adjacency, terminals, r');
    SubsetSize(r.reached.Keys, r'.reached.Keys);
    if r'.following != [] {
      Progress(r, r', level);
    }
  }
}
