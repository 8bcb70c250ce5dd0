// Disjoint sets as parent links.
//
// Both union-finds of the program share their root search with path halving: the connecting tree
// joins by rank, the component counter without.  What they share is stated over a rank that rises
// along every link; for the component counter that rank is a ghost.
module UnionFind {
  import opened Sets

  type Parents = map<string, string>
  type Ranks = map<string, nat>

  // Parents stay inside the map and climb.
  ghost predicate Climbs(parent: Parents, rank: Ranks, x: string)
    requires parent.Keys == rank.Keys && x in parent
  {
    parent[x] in parent && (parent[x] != x ==> rank[x] < rank[parent[x]])
  }

  ghost predicate Rising(parent: Parents, rank: Ranks) {
    && parent.Keys == rank.Keys
    && forall x {:trigger Climbs(parent, rank, x)} :: x in parent ==> Climbs(parent, rank, x)
  }

  ghost function Above(rank: Ranks, x: string): set<string>
    requires x in rank
  {
    set y | y in rank && rank[x] < rank[y]
  }

  ghost function RootOf(parent: Parents, rank: Ranks, x: string): (r: string)
    requires Rising(parent, rank) && x in parent
    ensures r in parent && parent[r] == r && rank[x] <= rank[r]
    ensures parent[x] != x ==> rank[x] < rank[r]
    decreases |Above(rank, x)|
  {
    assert Climbs(parent, rank, x);
    if parent[x] == x then x
    else
      ClimbsAbove(rank, x, parent[x]);
      RootOf(parent, rank, parent[x])
  }

  lemma ClimbsAbove(rank: Ranks, x: string, y: string)
    requires x in rank && y in rank && rank[x] < rank[y]
    ensures |Above(rank, y)| < |Above(rank, x)|
  {
    assert y in Above(rank, x) && y !in Above(rank, y);
    SubsetSize(Above(rank, y), Above(rank, x) - {y});
  }

  // Roots do not depend on the rank that shows the links climb.
  lemma {:induction false} RootUnique(parent: Parents, rank: Ranks, other: Ranks, x: string)
    requires Rising(parent, rank) && Rising(parent, other) && x in parent
    ensures RootOf(parent, rank, x) == RootOf(parent, other, x)
    decreases |Above(rank, x)|
  {
    assert Climbs(parent, rank, x);
    if parent[x] == x {
    } else {
      ClimbsAbove(rank, x, parent[x]);
      RootUnique(parent, rank, other, parent[x]);
    }
  }

  // ---------- path halving ----------

  lemma HalvingRises(parent: Parents, rank: Ranks, x: string)
    requires Rising(parent, rank) && x in parent && parent[x] in parent
    ensures Rising(parent[x := parent[parent[x]]], rank)
  {
    var after := parent[x := parent[parent[x]]];
    assert Climbs(parent, rank, x) && Climbs(parent, rank, parent[x]);
    forall y | y in after ensures Climbs(after, rank, y) {
      assert Climbs(parent, rank, y);
    }
  }

  lemma {:induction false} HalvingKeepsRoot(parent: Parents, rank: Ranks, x: string, y: string)
    requires Rising(parent, rank) && x in parent && y in parent && parent[x] != x && parent[x] in parent
    ensures Rising(parent[x := parent[parent[x]]], rank)
    ensures RootOf(parent[x := parent[parent[x]]], rank, y) == RootOf(parent, rank, y)
    decreases |Above(rank, y)|
  {
    HalvingRises(parent, rank, x);
    var after := parent[x := parent[parent[x]]];
    assert Climbs(parent, rank, y) && Climbs(parent, rank, parent[y]) && Climbs(after, rank, y);
    if parent[y] == y {
    } else {
      ClimbsAbove(rank, y, parent[y]);
      HalvingKeepsRoot(parent, rank, x, parent[y]);
      if y == x && after[y] != parent[y] {
        ClimbsAbove(rank, parent[y], after[y]);
        HalvingKeepsRoot(parent, rank, x, after[y]);
      }
    }
  }

  ghost predicate SameRoots(parent: Parents, after: Parents, rank: Ranks) {
    && Rising(parent, rank) && Rising(after, rank)
    && forall y {:trigger RootOf(after, rank, y)} :: y in parent ==> RootOf(after, rank, y) == RootOf(parent, rank, y)
  }

  lemma HalvingKeepsRoots(parent: Parents, rank: Ranks, x: string)
    requires Rising(parent, rank) && x in parent && parent[x] != x && parent[x] in parent
    ensures SameRoots(parent, parent[x := parent[parent[x]]], rank)
  {
    HalvingRises(parent, rank, x);
    forall y | y in parent ensures RootOf(parent[x := parent[parent[x]]], rank, y) == RootOf(parent, rank, y) {
      HalvingKeepsRoot(parent, rank, x, y);
    }
  }

  lemma HalvedRoot(parent: Parents, rank: Ranks, x: string)
    requires Rising(parent, rank) && x in parent && parent[x] in parent && parent[parent[x]] in parent
    ensures RootOf(parent, rank, parent[parent[x]]) == RootOf(parent, rank, x)
  {}

  // Follow links to the root, pointing every other dataset on the way at its grandparent.
  method FindRoot(parent: Parents, ghost rank: Ranks, node: string) returns (after: Parents, root: string)
    requires Rising(parent, rank) && node in parent
    ensures SameRoots(parent, after, rank)
    ensures root == RootOf(parent, rank, node)
  {
    after, root := parent, node;
    while after[root] != root
      invariant SameRoots(parent, after, rank)
      invariant root in parent && RootOf(parent, rank, root) == RootOf(parent, rank, node)
      decreases |Above(rank, root)|
    {
      assert Climbs(after, rank, root) && Climbs(after, rank, after[root]);
      HalvingKeepsRoots(after, rank, root);
      HalvedRoot(after, rank, root);
      after := after[root := after[after[root]]];
      ClimbsAbove(rank, root, after[root]);
      root := after[root];
    }
    assert RootOf(after, rank, root) == root;
  }

  // ---------- linking two roots ----------

  lemma {:induction false} LinkMoves(parent: Parents, rank: Ranks, after: Parents, rank': Ranks, low: string,
                                     high: string, y: string)
    requires Rising(parent, rank) && Rising(after, rank')
    requires low in parent && high in parent && parent[low] == low && parent[high] == high && low != high
    requires after == parent[low := high] && y in parent
    ensures RootOf(after, rank', y) == if RootOf(parent, rank, y) == low then high else RootOf(parent, rank, y)
    decreases |Above(rank, y)|
  {
    assert Climbs(parent, rank, y) && Climbs(after, rank', y);
    if parent[y] != y {
      ClimbsAbove(rank, y, parent[y]);
      LinkMoves(parent, rank, after, rank', low, high, parent[y]);
    } else if y == low {
      assert RootOf(after, rank', high) == high;
    }
  }

  ghost function Class(parent: Parents, rank: Ranks, r: string): set<string>
    requires Rising(parent, rank)
  {
    set y | y in parent && RootOf(parent, rank, y) == r
  }

  function Pow2(n: nat): nat { if n == 0 then 1 else 2 * Pow2(n - 1) }

  ghost predicate Heavy(parent: Parents, rank: Ranks, r: string)
    requires Rising(parent, rank) && r in parent
  {
    Pow2(rank[r]) <= |Class(parent, rank, r)|
  }

  // A root of rank k stands for at least 2^k datasets.
  ghost predicate Weighty(parent: Parents, rank: Ranks) {
    && Rising(parent, rank)
    && forall r {:trigger Heavy(parent, rank, r)} :: r in parent && parent[r] == r ==> Heavy(parent, rank, r)
  }

  lemma LinkClasses(parent: Parents, rank: Ranks, after: Parents, rank': Ranks, low: string, high: string)
    requires Rising(parent, rank) && Rising(after, rank')
    requires low in parent && high in parent && parent[low] == low && parent[high] == high && low != high
    requires after == parent[low := high]
    ensures Class(after, rank', high) == Class(parent, rank, high) + Class(parent, rank, low)
    ensures |Class(after, rank', high)| == |Class(parent, rank, high)| + |Class(parent, rank, low)|
    ensures forall r :: r != low && r != high ==> Class(after, rank', r) == Class(parent, rank, r)
  {
    forall y {:trigger RootOf(after, rank', y)} | y in parent
      ensures RootOf(after, rank', y) == if RootOf(parent, rank, y) == low then high else RootOf(parent, rank, y)
    {
      LinkMoves(parent, rank, after, rank', low, high, y);
    }
    assert Class(parent, rank, high) !! Class(parent, rank, low);
    forall r | r != low && r != high ensures Class(after, rank', r) == Class(parent, rank, r) {
      assert forall y :: y in Class(after, rank', r) <==> y in Class(parent, rank, r);
    }
  }

  // The root of every dataset: two are in one class when their roots agree.
  ghost function Roots(parent: Parents, rank: Ranks): map<string, string>
    requires Rising(parent, rank)
  {
    map x | x in parent :: RootOf(parent, rank, x)
  }

  // Exactly the classes of `l` and `r` have become one.
  ghost predicate Joined(roots: map<string, string>, after: map<string, string>, l: string, r: string) {
    && after.Keys == roots.Keys && l in roots && r in roots
    && forall x, y :: x in roots && y in roots ==>
         (after[x] == after[y] <==>
            || roots[x] == roots[y]
            || (roots[x] == roots[l] && roots[y] == roots[r])
            || (roots[x] == roots[r] && roots[y] == roots[l]))
  }

  // Renaming a class to another one joins the two.
  lemma RenamingJoins(roots: map<string, string>, after: map<string, string>, l: string, r: string, low: string,
                      high: string)
    requires l in roots && r in roots && roots[l] != roots[r] && after.Keys == roots.Keys
    requires (low == roots[l] && high == roots[r]) || (low == roots[r] && high == roots[l])
    requires forall y :: y in roots ==> after[y] == if roots[y] == low then high else roots[y]
    ensures Joined(roots, after, l, r)
  {}

  class DisjointSets {
    var parent: Parents
    var rank: Ranks

    ghost predicate Valid()
      reads this
    {
      Weighty(parent, rank)
    }

    ghost function Classes(): map<string, string>
      reads this
      requires Valid()
    {
      Roots(parent, rank)
    }

    constructor (nodes: seq<string>)
      ensures Valid()
      ensures forall x :: x in Classes() <==> x in nodes
      ensures forall x :: x in nodes ==> Classes()[x] == x
    {
      parent := map x | x in nodes :: x;
      rank := map x | x in nodes :: 0;
      new;
      forall r | r in parent ensures Heavy(parent, rank, r) {
        assert r in Class(parent, rank, r);
      }
    }

    method Root(node: string) returns (root: string)
      requires Valid() && node in parent
      modifies this`parent
      ensures Valid() && Classes() == old(Classes())
      ensures root == Classes()[node] && parent[root] == root
    {
      ghost var before := parent;
      parent, root := FindRoot(parent, rank, node);
      RootsKeepWeight(before, parent, rank);
    }

    // True exactly when the two were apart; afterwards their classes are one.
    method Join(left: string, right: string) returns (joined: bool)
      requires Valid() && left in parent && right in parent
      modifies this
      ensures Valid()
      ensures joined <==> old(Classes()[left] != Classes()[right])
      ensures Joined(old(Classes()), Classes(), left, right)
    {
      var a := Root(left);
      var b := Root(right);
      if a == b {
        return false;
      }
      if rank[a] < rank[b] {
        a, b := b, a;
      }
      ghost var before, ranks := parent, rank;
      parent := parent[b := a];
      if rank[a] == rank[b] {
        rank := rank[a := rank[a] + 1];
      }
      LinkByRank(before, ranks, parent, rank, b, a);
      RenamingJoins(old(Classes()), Classes(), left, right, b, a);
      return true;
    }
  }

  lemma RootsKeepWeight(parent: Parents, after: Parents, rank: Ranks)
    requires Weighty(parent, rank) && SameRoots(parent, after, rank)
    ensures Weighty(after, rank) && Roots(after, rank) == Roots(parent, rank)
  {
    forall r | r in after && after[r] == r ensures Heavy(after, rank, r) {
      assert RootOf(after, rank, r) == r == RootOf(parent, rank, r);
      assert Heavy(parent, rank, r);
      assert Class(after, rank, r) == Class(parent, rank, r);
    }
  }

  lemma LinkRises(parent: Parents, rank: Ranks, after: Parents, rank': Ranks, low: string, high: string)
    requires Rising(parent, rank) && low in parent && high in parent && low != high && parent[high] == high
    requires rank[low] <= rank[high] && after == parent[low := high]
    requires rank' == if rank[high] == rank[low] then rank[high := rank[high] + 1] else rank
    ensures Rising(after, rank')
  {
    forall y | y in after ensures Climbs(after, rank', y) {
      assert Climbs(parent, rank, y);
    }
  }

  lemma LinkByRank(parent: Parents, rank: Ranks, after: Parents, rank': Ranks, low: string, high: string)
    requires Weighty(parent, rank)
    requires low in parent && high in parent && parent[low] == low && parent[high] == high && low != high
    requires rank[low] <= rank[high] && after == parent[low := high]
    requires rank' == if rank[high] == rank[low] then rank[high := rank[high] + 1] else rank
    ensures Weighty(after, rank')
    ensures forall y {:trigger RootOf(after, rank', y)} :: y in parent ==>
              RootOf(after, rank', y) == if RootOf(parent, rank, y) == low then high else RootOf(parent, rank, y)
  {
    LinkRises(parent, rank, after, rank', low, high);
    forall y {:trigger RootOf(after, rank', y)} | y in parent
      ensures RootOf(after, rank', y) == if RootOf(parent, rank, y) == low then high else RootOf(parent, rank, y)
    {
      LinkMoves(parent, rank, after, rank', low, high, y);
    }
    LinkClasses(parent, rank, after, rank', low, high);
    forall r | r in after && after[r] == r ensures Heavy(after, rank', r) {
      LinkWeight(parent, rank, after, rank', low, high, r);
    }
  }

  lemma LinkWeight(parent: Parents, rank: Ranks, after: Parents, rank': Ranks, low: string, high: string, r: string)
    requires Weighty(parent, rank) && Rising(after, rank')
    requires low in parent && high in parent && parent[low] == low && parent[high] == high && low != high
    requires rank[low] <= rank[high] && after == parent[low := high]
    requires rank' == if rank[high] == rank[low] then rank[high := rank[high] + 1] else rank
    requires r in after && after[r] == r
    ensures Heavy(after, rank', r)
  {
    LinkClasses(parent, rank, after, rank', low, high);
    assert parent[r] == r && Heavy(parent, rank, r) && Heavy(parent, rank, low);
    if r == high {
      LinkedPower(rank[low], rank[high]);
      HeavyTogether(parent, rank, after, rank', low, high);
    } else {
      assert Class(after, rank', r) == Class(parent, rank, r);
    }
  }

  lemma HeavyTogether(parent: Parents, rank: Ranks, after: Parents, rank': Ranks, low: string, high: string)
    requires Rising(parent, rank) && Rising(after, rank') && low in parent && high in parent && high in after
    requires Heavy(parent, rank, low) && Heavy(parent, rank, high)
    requires |Class(after, rank', high)| == |Class(parent, rank, high)| + |Class(parent, rank, low)|
    requires Pow2(rank'[high]) <= Pow2(rank[low]) + Pow2(rank[high])
    ensures Heavy(after, rank', high)
  {}

  lemma LinkedPower(low: nat, high: nat)
    requires low <= high
    ensures Pow2(if high == low then high + 1 else high) <= Pow2(low) + Pow2(high)
  {}

  // Ranks stay logarithmic: no chain of links is longer than log2 of the number of datasets.
  lemma RankBound(parent: Parents, rank: Ranks, x: string)
    requires Weighty(parent, rank) && x in parent
    ensures Pow2(rank[x]) <= |parent|
  {
    var r := RootOf(parent, rank, x);
    assert Heavy(parent, rank, r);
    Pow2Monotone(rank[x], rank[r]);
    SubsetSize(Class(parent, rank, r), parent.Keys);
    assert |parent.Keys| == |parent|;
  }

  lemma {:induction false} Pow2Monotone(m: nat, n: nat)
    requires m <= n
    ensures Pow2(m) <= Pow2(n)
    decreases n
  {
    if m < n { Pow2Monotone(m, n - 1); }
  }
}
