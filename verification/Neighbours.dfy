// Directed edges and their groups (`query/neighbourhood.py`).
module Neighbours {
  import opened Order
  import opened Model

  // A relationship leaving one of its ends.
  datatype DirectedEdge = DirectedEdge(relationship: Relationship, source: Endpoint, target: Endpoint)

  type EdgesByDataset = map<string, seq<DirectedEdge>>

  function Leaving(edges: EdgesByDataset, node: string): seq<DirectedEdge> {
    if node in edges then edges[node] else []
  }

  // Logical entity ID, start columns, end dataset, then end columns.
  function SortKey(e: DirectedEdge): Key {
    Tuple([
      Text(e.source.identityId), Tuple(Texts(e.source.columns)),
      Text(e.target.nodeId), Tuple(Texts(e.target.columns))])
  }

  // ---------- listing ----------

  function FromA(r: Relationship): DirectedEdge { DirectedEdge(r, r.a, r.b) }

  function FromB(r: Relationship): DirectedEdge { DirectedEdge(r, r.b, r.a) }

  // What listing a relationship appends to a dataset's edges.
  function OwnEdges(r: Relationship, node: string): seq<DirectedEdge> {
    var first := if r.a.nodeId == node then [FromA(r)] else [];
    if r.b.nodeId == node then first + [FromB(r)] else first
  }

  function AllOwnEdges(rs: seq<Relationship>, node: string): seq<DirectedEdge> {
    if rs == [] then [] else AllOwnEdges(rs[..|rs| - 1], node) + OwnEdges(rs[|rs| - 1], node)
  }

  ghost predicate Lists(listed: EdgesByDataset, rs: seq<Relationship>) {
    forall node {:trigger Leaving(listed, node)} :: Leaving(listed, node) == AllOwnEdges(rs, node)
  }

  function Append(listed: EdgesByDataset, node: string, e: DirectedEdge): EdgesByDataset {
    listed[node := Leaving(listed, node) + [e]]
  }

  lemma AppendLeaving(listed: EdgesByDataset, at: string, e: DirectedEdge, node: string)
    ensures Leaving(Append(listed, at, e), node) == if node == at then Leaving(listed, node) + [e]
              else Leaving(listed, node)
  {}

  lemma OwnEdgesNext(before: seq<DirectedEdge>, r: Relationship, node: string)
    ensures before + OwnEdges(r, node) ==
              var first := if r.a.nodeId == node then before + [FromA(r)] else before;
              if r.b.nodeId == node then first + [FromB(r)] else first
  {}

  lemma ListsNext(listed: EdgesByDataset, mid: EdgesByDataset, after: EdgesByDataset, rs: seq<Relationship>,
                  r: Relationship)
    requires Lists(listed, rs)
    requires mid == Append(listed, r.a.nodeId, FromA(r)) && after == Append(mid, r.b.nodeId, FromB(r))
    ensures Lists(after, rs + [r])
  {
    assert (rs + [r])[..|rs|] == rs;
    forall node {:trigger Leaving(after, node)} ensures Leaving(after, node) == AllOwnEdges(rs + [r], node) {
      assert Leaving(listed, node) == AllOwnEdges(rs, node);
      AppendLeaving(listed, r.a.nodeId, FromA(r), node);
      AppendLeaving(mid, r.b.nodeId, FromB(r), node);
      OwnEdgesNext(AllOwnEdges(rs, node), r, node);
    }
  }

  // `directed_edges_by_dataset`: a dataset's edges are those of its ends, in sort-key order.
  method DirectedEdgesByDataset(rs: seq<Relationship>) returns (edges: EdgesByDataset)
    ensures forall node {:trigger Leaving(edges, node)} ::
              Leaving(edges, node) == StablySorted(AllOwnEdges(rs, node), SortKey)
  {
    var listed: EdgesByDataset := map[];
    for n := 0 to |rs|
      invariant Lists(listed, rs[..n])
    {
      ghost var before := listed;
      listed := Append(listed, rs[n].a.nodeId, FromA(rs[n]));
      ghost var mid := listed;
      listed := Append(listed, rs[n].b.nodeId, FromB(rs[n]));
      ListsNext(before, mid, listed, rs[..n], rs[n]);
      assert rs[..n + 1] == rs[..n] + [rs[n]];
    }
    assert rs[..|rs|] == rs;
    edges := EachSorted(listed);
    SortedLeaving(listed, rs);
  }

  function EachSorted(listed: EdgesByDataset): EdgesByDataset {
    map node | node in listed :: StablySorted(listed[node], SortKey)
  }

  lemma SortedLeaving(listed: EdgesByDataset, rs: seq<Relationship>)
    requires Lists(listed, rs)
    ensures forall node {:trigger Leaving(EachSorted(listed), node)} ::
              Leaving(EachSorted(listed), node) == StablySorted(AllOwnEdges(rs, node), SortKey)
  {
    forall node {:trigger Leaving(EachSorted(listed), node)}
      ensures Leaving(EachSorted(listed), node) == StablySorted(AllOwnEdges(rs, node), SortKey)
    {
      assert Leaving(listed, node) == AllOwnEdges(rs, node);
    }
  }

  lemma {:induction false} OwnEdgesMembers(rs: seq<Relationship>, node: string, e: DirectedEdge)
    ensures e in AllOwnEdges(rs, node) <==>
            && e.source.nodeId == node && e.relationship in rs
            && (e == FromA(e.relationship) || e == FromB(e.relationship))
  {
    if rs == [] {
    } else {
      OwnEdgesMembers(rs[..|rs| - 1], node, e);
      assert rs == rs[..|rs| - 1] + [rs[|rs| - 1]];
    }
  }

  // Every end of every relationship leaves its own dataset, and nothing else does.
  lemma ListedExactly(rs: seq<Relationship>, edges: EdgesByDataset, node: string, e: DirectedEdge)
    requires Leaving(edges, node) == StablySorted(AllOwnEdges(rs, node), SortKey)
    ensures e in Leaving(edges, node) <==>
            && e.source.nodeId == node && e.relationship in rs
            && (e == FromA(e.relationship) || e == FromB(e.relationship))
    ensures Ascending(Leaving(edges, node), SortKey)
  {
    OwnEdgesMembers(rs, node, e);
    SamePermutation(Leaving(edges, node), AllOwnEdges(rs, node));
  }

  // ---------- groups ----------

  datatype EdgeGroup = EdgeGroup(source: Endpoint, edgeCount: nat, edges: seq<DirectedEdge>)
  {
    predicate Truncated() { |edges| < edgeCount }
  }

  function Filter(edges: seq<DirectedEdge>, keep: DirectedEdge -> bool): (r: seq<DirectedEdge>)
    ensures |r| <= |edges|
    ensures forall e :: e in r <==> e in edges && keep(e)
  {
    if edges == [] then []
    else
      var before, last := Filter(edges[..|edges| - 1], keep), edges[|edges| - 1];
      if keep(last) then before + [last] else before
  }

  // The edges leaving one definition.
  function Of(edges: seq<DirectedEdge>, source: Endpoint): (r: seq<DirectedEdge>)
    ensures |r| <= |edges| && forall e :: e in r <==> e in edges && e.source == source
  {
    if edges == [] then []
    else
      var before, last := Of(edges[..|edges| - 1], source), edges[|edges| - 1];
      if last.source == source then before + [last] else before
  }

  function AtMost(edges: seq<DirectedEdge>, limit: Option<nat>): seq<DirectedEdge> {
    if limit.Some? && limit.value < |edges| then edges[..limit.value] else edges
  }

  // The group of a definition: all its edges counted, the first few that are accepted listed.
  function GroupOf(edges: seq<DirectedEdge>, source: Endpoint, limit: Option<nat>,
                   listed: DirectedEdge -> bool): EdgeGroup {
    EdgeGroup(source, |Of(edges, source)|, AtMost(Filter(Of(edges, source), listed), limit))
  }

  function SourceAt(edges: seq<DirectedEdge>, i: nat): Endpoint
    requires i < |edges|
  {
    edges[i].source
  }

  // The edges of one definition come one after the other.
  ghost predicate Adjoining(edges: seq<DirectedEdge>) {
    forall i: nat, j: nat, k: nat {:trigger SourceAt(edges, i), SourceAt(edges, j), SourceAt(edges, k)} ::
      i < j < k < |edges| && SourceAt(edges, i) == SourceAt(edges, k) ==> SourceAt(edges, j) == SourceAt(edges, i)
  }

  ghost predicate Unseen(edges: seq<DirectedEdge>, source: Endpoint) {
    forall x :: x in edges ==> x.source != source
  }

  ghost predicate GroupFits(g: EdgeGroup, edges: seq<DirectedEdge>, limit: Option<nat>, listed: DirectedEdge -> bool) {
    g == GroupOf(edges, g.source, limit, listed) && g.edgeCount > 0
  }

  ghost predicate HasGroup(groups: seq<EdgeGroup>, source: Endpoint) {
    exists i :: 0 <= i < |groups| && groups[i].source == source
  }

  ghost predicate AllFit(groups: seq<EdgeGroup>, edges: seq<DirectedEdge>, limit: Option<nat>,
                         listed: DirectedEdge -> bool) {
    forall i :: 0 <= i < |groups| ==> GroupFits(groups[i], edges, limit, listed)
  }

  ghost predicate AllGrouped(groups: seq<EdgeGroup>, edges: seq<DirectedEdge>) {
    forall e :: e in edges ==> HasGroup(groups, e.source)
  }

  ghost predicate DistinctSources(groups: seq<EdgeGroup>) {
    forall i, j :: 0 <= i < j < |groups| ==> groups[i].source != groups[j].source
  }

  // Groups come in the order of their edges.
  ghost predicate InEdgeOrder(groups: seq<EdgeGroup>, edges: seq<DirectedEdge>) {
    forall a: nat, b: nat, i, j {:trigger SourceAt(edges, a), SourceAt(edges, b), groups[i], groups[j]} ::
      && a < b < |edges| && 0 <= i < |groups| && 0 <= j < |groups|
      && groups[i].source == SourceAt(edges, a) && groups[j].source == SourceAt(edges, b) ==>
        i <= j
  }

  // One group for every definition some edge leaves, in the order of the edges.
  ghost predicate Groups(groups: seq<EdgeGroup>, edges: seq<DirectedEdge>, limit: Option<nat>,
                         listed: DirectedEdge -> bool) {
    && AllFit(groups, edges, limit, listed) && AllGrouped(groups, edges) && DistinctSources(groups)
    && InEdgeOrder(groups, edges)
  }

  function Grown(g: EdgeGroup, e: DirectedEdge, limit: Option<nat>, listed: DirectedEdge -> bool): EdgeGroup {
    EdgeGroup(g.source, g.edgeCount + 1,
              if (limit.None? || |g.edges| < limit.value) && listed(e) then g.edges + [e] else g.edges)
  }

  lemma OfNext(edges: seq<DirectedEdge>, e: DirectedEdge, source: Endpoint)
    ensures Of(edges + [e], source) == if e.source == source then Of(edges, source) + [e] else Of(edges, source)
  {
    assert (edges + [e])[..|edges|] == edges;
  }

  lemma FilterNext(edges: seq<DirectedEdge>, e: DirectedEdge, keep: DirectedEdge -> bool)
    ensures Filter(edges + [e], keep) == if keep(e) then Filter(edges, keep) + [e] else Filter(edges, keep)
  {
    assert (edges + [e])[..|edges|] == edges;
  }

  lemma AtMostNext(edges: seq<DirectedEdge>, e: DirectedEdge, limit: Option<nat>)
    ensures AtMost(edges + [e], limit) ==
              if limit.None? || |AtMost(edges, limit)| < limit.value then AtMost(edges, limit) + [e]
              else AtMost(edges, limit)
  {
    if limit.Some? && limit.value <= |edges| {
      assert (edges + [e])[..limit.value] == edges[..limit.value];
      assert edges[..|edges|] == edges;
    }
  }

  // Counting one more edge of its definition brings a group up to date.
  lemma GrownGroup(edges: seq<DirectedEdge>, e: DirectedEdge, limit: Option<nat>, listed: DirectedEdge -> bool)
    ensures GroupOf(edges + [e], e.source, limit, listed)
         == Grown(GroupOf(edges, e.source, limit, listed), e, limit, listed)
  {
    var own := Of(edges, e.source);
    OfNext(edges, e, e.source);
    FilterNext(own, e, listed);
    AtMostNext(Filter(own, listed), e, limit);
  }

  lemma FitsLater(g: EdgeGroup, edges: seq<DirectedEdge>, e: DirectedEdge, limit: Option<nat>,
                  listed: DirectedEdge -> bool)
    requires GroupFits(g, edges, limit, listed) && e.source != g.source
    ensures GroupFits(g, edges + [e], limit, listed)
  {
    OfNext(edges, e, g.source);
  }

  lemma FitsGrown(g: EdgeGroup, edges: seq<DirectedEdge>, e: DirectedEdge, limit: Option<nat>,
                  listed: DirectedEdge -> bool)
    requires g == GroupOf(edges, e.source, limit, listed)
    ensures GroupFits(Grown(g, e, limit, listed), edges + [e], limit, listed)
  {
    GrownGroup(edges, e, limit, listed);
  }

  lemma NoEdgesYet(edges: seq<DirectedEdge>, source: Endpoint, limit: Option<nat>, listed: DirectedEdge -> bool)
    requires Unseen(edges, source)
    ensures GroupOf(edges, source, limit, listed) == EdgeGroup(source, 0, [])
  {
    var own := Of(edges, source);
    assert forall x :: x !in own;
    assert forall i :: 0 <= i < |own| ==> own[i] in own;
  }

  // A group for `e`'s definition added to groups of other definitions.
  lemma FitWith(init: seq<EdgeGroup>, g: EdgeGroup, edges: seq<DirectedEdge>, e: DirectedEdge, limit: Option<nat>,
                listed: DirectedEdge -> bool)
    requires AllFit(init, edges, limit, listed) && forall i :: 0 <= i < |init| ==> init[i].source != e.source
    requires GroupFits(g, edges + [e], limit, listed)
    ensures AllFit(init + [g], edges + [e], limit, listed)
  {
    forall i | 0 <= i < |init| ensures GroupFits(init[i], edges + [e], limit, listed) {
      FitsLater(init[i], edges, e, limit, listed);
    }
  }

  lemma GroupedWith(groups: seq<EdgeGroup>, init: seq<EdgeGroup>, g: EdgeGroup, edges: seq<DirectedEdge>,
                    e: DirectedEdge)
    requires AllGrouped(groups, edges) && init <= groups && |groups| <= |init| + 1 && g.source == e.source
    requires |groups| > |init| ==> groups[|init|].source == g.source
    ensures AllGrouped(init + [g], edges + [e])
  {
    forall x | x in edges + [e] ensures HasGroup(init + [g], x.source) {
      assert (init + [g])[|init|] == g;
      if x in edges {
        var i :| 0 <= i < |groups| && groups[i].source == x.source;
        assert (init + [g])[i].source == x.source;
      }
    }
  }

  lemma DistinctWith(init: seq<EdgeGroup>, g: EdgeGroup)
    requires DistinctSources(init) && forall i :: 0 <= i < |init| ==> init[i].source != g.source
    ensures DistinctSources(init + [g])
  {}

  // The group of the last edge is the last.
  lemma OrderWith(groups: seq<EdgeGroup>, after: seq<EdgeGroup>, edges: seq<DirectedEdge>, e: DirectedEdge)
    requires InEdgeOrder(groups, edges) && AllGrouped(groups, edges) && DistinctSources(after)
    requires |groups| <= |after| && forall i :: 0 <= i < |groups| ==> after[i].source == groups[i].source
    requires after != [] && after[|after| - 1].source == e.source
    ensures InEdgeOrder(after, edges + [e])
  {
    var all := edges + [e];
    forall a: nat, b: nat, i, j | a < b < |all| && 0 <= i < |after| && 0 <= j < |after|
        && after[i].source == SourceAt(all, a) && after[j].source == SourceAt(all, b)
      ensures i <= j
    {
      if b == |edges| {
        assert j == |after| - 1;
      } else {
        assert SourceAt(all, a) == SourceAt(edges, a) && SourceAt(all, b) == SourceAt(edges, b);
        assert edges[a] in edges && edges[b] in edges;
        assert i < |groups| by { IndexBelow(groups, after, edges[a].source, i); }
        assert j < |groups| by { IndexBelow(groups, after, edges[b].source, j); }
        assert groups[i].source == SourceAt(edges, a) && groups[j].source == SourceAt(edges, b);
      }
    }
  }

  lemma IndexBelow(groups: seq<EdgeGroup>, after: seq<EdgeGroup>, source: Endpoint, i: nat)
    requires HasGroup(groups, source) && DistinctSources(after) && i < |after| && after[i].source == source
    requires |groups| <= |after| && forall i :: 0 <= i < |groups| ==> after[i].source == groups[i].source
    ensures i < |groups|
  {
    var k :| 0 <= k < |groups| && groups[k].source == source;
    assert after[k].source == source;
  }

  lemma NoGroupYet(groups: seq<EdgeGroup>, edges: seq<DirectedEdge>, source: Endpoint, limit: Option<nat>,
                   listed: DirectedEdge -> bool)
    requires AllFit(groups, edges, limit, listed) && Unseen(edges, source)
    ensures forall i :: 0 <= i < |groups| ==> groups[i].source != source
  {
    NoEdgesYet(edges, source, limit, listed);
    forall i | 0 <= i < |groups| ensures groups[i].source != source {
      assert GroupFits(groups[i], edges, limit, listed);
    }
  }

  lemma NewGroup(groups: seq<EdgeGroup>, added: EdgeGroup, edges: seq<DirectedEdge>, e: DirectedEdge,
                 limit: Option<nat>, listed: DirectedEdge -> bool)
    requires Groups(groups, edges, limit, listed) && Unseen(edges, e.source)
    requires added == Grown(EdgeGroup(e.source, 0, []), e, limit, listed)
    ensures Groups(groups + [added], edges + [e], limit, listed)
  {
    NoEdgesYet(edges, e.source, limit, listed);
    FitsGrown(EdgeGroup(e.source, 0, []), edges, e, limit, listed);
    NoGroupYet(groups, edges, e.source, limit, listed);
    FitWith(groups, added, edges, e, limit, listed);
    GroupedWith(groups, groups, added, edges, e);
    DistinctWith(groups, added);
    OrderWith(groups, groups + [added], edges, e);
  }

  lemma DropLast(groups: seq<EdgeGroup>, init: seq<EdgeGroup>, edges: seq<DirectedEdge>, limit: Option<nat>,
                 listed: DirectedEdge -> bool)
    requires Groups(groups, edges, limit, listed) && groups != [] && init == groups[..|groups| - 1]
    ensures AllFit(init, edges, limit, listed) && DistinctSources(init)
    ensures forall i :: 0 <= i < |init| ==> init[i].source != groups[|init|].source
  {}

  lemma SameGroup(groups: seq<EdgeGroup>, init: seq<EdgeGroup>, grown: EdgeGroup, edges: seq<DirectedEdge>,
                  e: DirectedEdge, limit: Option<nat>, listed: DirectedEdge -> bool)
    requires Groups(groups, edges, limit, listed) && groups != [] && init == groups[..|groups| - 1]
    requires groups[|init|].source == grown.source == e.source && GroupFits(grown, edges + [e], limit, listed)
    ensures Groups(init + [grown], edges + [e], limit, listed)
  {
    DropLast(groups, init, edges, limit, listed);
    FitWith(init, grown, edges, e, limit, listed);
    GroupedWith(groups, init, grown, edges, e);
    DistinctWith(init, grown);
    OrderWith(groups, init + [grown], edges, e);
  }

  // A definition no longer at the end has not come up before.
  lemma SourceLast(edges: seq<DirectedEdge>, n: nat)
    requires Adjoining(edges) && 0 < n < |edges| && edges[n - 1].source != edges[n].source
    ensures Unseen(edges[..n], edges[n].source)
  {
    forall i | 0 <= i < n ensures edges[i].source != edges[n].source {
      assert SourceAt(edges, n - 1) != SourceAt(edges, n);
      assert i == n - 1 || SourceAt(edges, i) != SourceAt(edges, n);
    }
  }

  // One more edge: into the last group, or into a new one.
  method AddEdge(groups: seq<EdgeGroup>, ghost edges: seq<DirectedEdge>, e: DirectedEdge, limit: Option<nat>,
                 listed: DirectedEdge -> bool)
    returns (after: seq<EdgeGroup>)
    requires Groups(groups, edges, limit, listed)
    requires groups == [] || groups[|groups| - 1].source != e.source ==> Unseen(edges, e.source)
    ensures Groups(after, edges + [e], limit, listed) && after != [] && after[|after| - 1].source == e.source
  {
    if groups == [] || groups[|groups| - 1].source != e.source {
      var added := Grown(EdgeGroup(e.source, 0, []), e, limit, listed);
      after := groups + [added];
      NewGroup(groups, added, edges, e, limit, listed);
    } else {
      var last := groups[|groups| - 1];
      var grown := Grown(last, e, limit, listed);
      after := groups[..|groups| - 1] + [grown];
      assert GroupFits(last, edges, limit, listed);
      FitsGrown(last, edges, e, limit, listed);
      SameGroup(groups, groups[..|groups| - 1], grown, edges, e, limit, listed);
    }
  }

  lemma TakeNext(edges: seq<DirectedEdge>, n: nat)
    requires n < |edges|
    ensures edges[..n + 1] == edges[..n] + [edges[n]]
  {}

  // `group_edges`
  method GroupEdges(edges: seq<DirectedEdge>, limit: Option<nat>, listed: DirectedEdge -> bool)
    returns (groups: seq<EdgeGroup>)
    requires Adjoining(edges)
    ensures Groups(groups, edges, limit, listed)
  {
    groups := [];
    for n := 0 to |edges|
      invariant Groups(groups, edges[..n], limit, listed)
      invariant n == 0 <==> groups == []
      invariant n > 0 ==> groups[|groups| - 1].source == edges[n - 1].source
    {
      TakeNext(edges, n);
      if n > 0 && edges[n - 1].source != edges[n].source { SourceLast(edges, n); }
      groups := AddEdge(groups, edges[..n], edges[n], limit, listed);
    }
    assert edges[..|edges|] == edges;
  }
}
