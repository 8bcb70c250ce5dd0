// What `connecting_tree` returns, as a function of the number of levels searched, and why
// stopping early does not change it.
module ConnectingResult {
  import opened Order
  import opened Model
  import opened Sets
  import opened Regions
  import opened Boundaries
  import opened EarlyStop
  import opened SteinerTree

  datatype Status = Completed | Disconnected

  datatype ConnectingTree = ConnectingTree(status: Status, nodeIds: seq<string>, edgeIds: seq<string>)

  lemma TextsDistinct(s: set<string>)
    ensures Distinguishes(t => Text(t), s)
  {}

  // `sorted(...)` of a set of IDs.
  function SortedTexts(s: set<string>): (r: seq<string>)
    ensures Ascending(r, t => Text(t)) && NoDuplicates(r)
    ensures forall t :: t in r <==> t in s
    ensures |r| == |s|
  {
    TextsDistinct(s);
    Sorted(s, t => Text(t))
  }

  ghost function Ids(edges: set<Relationship>): set<string> {
    set e | e in edges :: e.edgeId
  }

  // ---------- the reference: all levels first, then Kruskal, then the chains ----------

  ghost predicate ValidInput(adjacency: Adjacency, terminals: seq<string>) {
    WellFormed(adjacency) && NoDuplicates(terminals) && |terminals| >= 2
  }

  ghost function Choice(adjacency: Adjacency, terminals: seq<string>, n: nat): seq<Candidate>
    requires WellFormed(adjacency)
  {
    AfterKeeps(adjacency, terminals, n);
    ItemsDistinct(adjacency, After(adjacency, terminals, n));
    Kruskal(terminals, SortedItems(After(adjacency, terminals, n))).chosen
  }

  ghost function Result(adjacency: Adjacency, terminals: seq<string>, n: nat): ConnectingTree
    requires WellFormed(adjacency)
  {
    var r, chosen := After(adjacency, terminals, n), Choice(adjacency, terminals, n);
    if |chosen| + 1 == |terminals| then
      ConnectingTree(Completed, SortedTexts(TreeNodes(r, terminals, chosen)),
                     SortedTexts(Ids(TreeEdges(r, terminals, chosen))))
    else
      ConnectingTree(Disconnected, terminals, [])
  }

  // Terminals and whole chains: everything found in `nodes` has its chain there too.
  ghost predicate Closed(r: Search, nodes: set<string>) {
    forall y :: y in nodes ==> y in r.reached && Chain(r, y) <= nodes
  }

  lemma TreeNodesClosed(adjacency: Adjacency, terminals: seq<string>, r: Search, chosen: seq<Candidate>)
    requires AllRooted(adjacency, terminals, r)
    requires forall c :: c in chosen ==> c.left in r.reached && c.right in r.reached
    ensures Closed(r, TreeNodes(r, terminals, chosen))
  {
    forall y | y in TreeNodes(r, terminals, chosen)
      ensures y in r.reached && Chain(r, y) <= TreeNodes(r, terminals, chosen)
    {
      if y in terminals {
        ChainFacts(adjacency, terminals, r, y);
      } else {
        ChosenNodesMember(r, chosen, y);
        var c :| c in chosen && (y in Chain(r, c.left) || y in Chain(r, c.right));
        var x := if y in Chain(r, c.left) then c.left else c.right;
        ChainClosed(adjacency, terminals, r, x, y);
        forall z | z in Chain(r, x) ensures z in ChosenNodes(r, chosen) {
          ChosenNodesMember(r, chosen, z);
        }
      }
    }
  }

  // ---------- the whole search ----------

  ghost predicate Finished(adjacency: Adjacency, terminals: seq<string>, n: nat) {
    After(adjacency, terminals, n).following == []
  }

  // A search that has run out of datasets does not change any more.
  lemma {:induction false} FinishedStays(adjacency: Adjacency, terminals: seq<string>, m: nat, n: nat)
    requires Finished(adjacency, terminals, m) && m <= n
    ensures After(adjacency, terminals, n) == After(adjacency, terminals, m)
    decreases n
  {
    if m == n {
    } else {
      FinishedStays(adjacency, terminals, m, n - 1);
    }
  }

  lemma {:induction false} ChainStays(adjacency: Adjacency, terminals: seq<string>, r: Search, r': Search, x: string)
    requires AllRooted(adjacency, terminals, r) && Extends(r, r') && x in r.reached
    ensures Chain(r', x) == Chain(r, x)
    decreases r.reached[x].distance
  {
    assert Rooted(adjacency, terminals, r, x);
    if x in terminals {
    } else {
      ChainStays(adjacency, terminals, r, r', r.reached[x].via.value.0);
    }
  }

  lemma {:induction false} TreeStays(adjacency: Adjacency, terminals: seq<string>, r: Search, r': Search,
                                     chosen: seq<Candidate>)
    requires AllRooted(adjacency, terminals, r) && Extends(r, r')
    requires forall c :: c in chosen ==> c.left in r.reached && c.right in r.reached
    ensures TreeNodes(r', terminals, chosen) == TreeNodes(r, terminals, chosen)
    ensures TreeEdges(r', terminals, chosen) == TreeEdges(r, terminals, chosen)
  {
    ChosenNodesStay(adjacency, terminals, r, r', chosen);
    TreeNodesClosed(adjacency, terminals, r, chosen);
    var nodes := TreeNodes(r, terminals, chosen);
    assert forall x :: x in nodes ==> x in r.reached && x in r'.reached && r'.reached[x] == r.reached[x];
    assert Links(r', nodes) == Links(r, nodes);
  }

  lemma {:induction false} ChosenNodesStay(adjacency: Adjacency, terminals: seq<string>, r: Search, r': Search,
                                           chosen: seq<Candidate>)
    requires AllRooted(adjacency, terminals, r) && Extends(r, r')
    requires forall c :: c in chosen ==> c.left in r.reached && c.right in r.reached
    ensures ChosenNodes(r', chosen) == ChosenNodes(r, chosen)
  {
    if chosen == [] {
    } else {
      var init, c := chosen[..|chosen| - 1], chosen[|chosen| - 1];
      assert chosen == init + [c];
      ChosenNodesStay(adjacency, terminals, r, r', init);
      ChainStays(adjacency, terminals, r, r', c.left);
      ChainStays(adjacency, terminals, r, r', c.right);
    }
  }

  lemma ChoiceFacts(adjacency: Adjacency, terminals: seq<string>, n: nat)
    requires ValidInput(adjacency, terminals)
    ensures var r := After(adjacency, terminals, n);
            && Distinguishes(ItemKey, r.candidates.Items)
            && Chosen(adjacency, terminals, r, SortedItems(r), Choice(adjacency, terminals, n))
            && forall c :: c in Choice(adjacency, terminals, n) ==>
                 c.left in r.reached && c.right in r.reached && c.edgeId == c.edge.edgeId
  {
    var r := After(adjacency, terminals, n);
    AfterKeeps(adjacency, terminals, n);
    ItemsDistinct(adjacency, r);
    var chosen := Choice(adjacency, terminals, n);
    forall c | c in chosen ensures c.left in r.reached && c.right in r.reached && c.edgeId == c.edge.edgeId {
      ChosenBoundary(adjacency, terminals, r, SortedItems(r), chosen, c);
    }
  }

  // Once `m` levels join all terminals, more levels give the same tree.
  lemma EarlyResult(adjacency: Adjacency, terminals: seq<string>, m: nat, n: nat)
    requires ValidInput(adjacency, terminals) && m <= n
    requires |Choice(adjacency, terminals, m)| + 1 == |terminals|
    ensures Result(adjacency, terminals, n) == Result(adjacency, terminals, m)
  {
    AfterKeeps(adjacency, terminals, m);
    ChoiceFacts(adjacency, terminals, m);
    EarlyChoice(adjacency, terminals, m, n);
    AfterExtends(adjacency, terminals, m, n);
    TreeStays(adjacency, terminals, After(adjacency, terminals, m), After(adjacency, terminals, n),
              Choice(adjacency, terminals, m));
  }

  ghost function Datasets(adjacency: Adjacency, terminals: seq<string>): set<string> {
    (set t | t in terminals) + (set e | e in Edges(adjacency) :: e.a.nodeId)
      + (set e | e in Edges(adjacency) :: e.b.nodeId)
  }

  lemma ReachedInside(adjacency: Adjacency, terminals: seq<string>, r: Search)
    requires AllRooted(adjacency, terminals, r)
    ensures r.reached.Keys <= Datasets(adjacency, terminals) && |r.reached.Keys| <= |Datasets(adjacency, terminals)|
  {
    forall x | x in r.reached ensures x in Datasets(adjacency, terminals) {
      assert Rooted(adjacency, terminals, r, x);
    }
    SubsetSize(r.reached.Keys, Datasets(adjacency, terminals));
  }

  // A level that finds something reaches more datasets.
  lemma Progress(r: Search, r': Search, n: nat)
    requires Layered(r, n) && Layered(r', n + 1) && Extends(r, r') && r'.following != []
    ensures |r.reached.Keys| < |r'.reached.Keys|
  {
    var x := r'.following[0];
    assert x in r'.following;
    SubsetSize(r.reached.Keys, r'.reached.Keys - {x});
  }

  // The result after `m` levels is that of every search run to its end.
  ghost predicate Final(adjacency: Adjacency, terminals: seq<string>, m: nat)
    requires WellFormed(adjacency)
  {
    forall n: nat :: Finished(adjacency, terminals, n) ==>
        Result(adjacency, terminals, n) == Result(adjacency, terminals, m)
  }

  lemma EarlyEnd(adjacency: Adjacency, terminals: seq<string>, m: nat)
    requires ValidInput(adjacency, terminals) && !Finished(adjacency, terminals, m)
    requires |Choice(adjacency, terminals, m + 1)| + 1 == |terminals|
    ensures Final(adjacency, terminals, m + 1)
  {
    forall n: nat | Finished(adjacency, terminals, n)
      ensures Result(adjacency, terminals, n) == Result(adjacency, terminals, m + 1)
    {
      if n <= m {
        FinishedStays(adjacency, terminals, n, m);
      } else {
        EarlyResult(adjacency, terminals, m + 1, n);
      }
    }
  }

  lemma FullEnd(adjacency: Adjacency, terminals: seq<string>, m: nat)
    requires ValidInput(adjacency, terminals) && Finished(adjacency, terminals, m)
    ensures Final(adjacency, terminals, m)
  {
    forall n: nat | Finished(adjacency, terminals, n)
      ensures Result(adjacency, terminals, n) == Result(adjacency, terminals, m)
    {
      FinishedStays(adjacency, terminals, if n <= m then n else m, if n <= m then m else n);
    }
  }
}
