// Bounded breadth-first expansion (`query/neighbourhood.py`, `expand`).
module Expansion {
  import opened Order
  import opened Model
  import opened Neighbours

  type Keep = DirectedEdge -> bool

  // ---------- hops ----------

  ghost predicate Hop(edges: EdgesByDataset, allowed: Keep, u: string, v: string) {
    exists e :: e in Leaving(edges, u) && allowed(e) && e.target.nodeId == v
  }

  ghost predicate HopAt(edges: EdgesByDataset, allowed: Keep, w: seq<string>, i: nat)
    requires i + 1 < |w|
  {
    Hop(edges, allowed, w[i], w[i + 1])
  }

  // A way along allowed directed edges.
  ghost predicate Way(edges: EdgesByDataset, allowed: Keep, w: seq<string>) {
    w != [] && forall i: nat {:trigger HopAt(edges, allowed, w, i)} :: i + 1 < |w| ==> HopAt(edges, allowed, w, i)
  }

  // `v` is `n` hops from some seed along some way.
  ghost predicate Reaches(edges: EdgesByDataset, allowed: Keep, seeds: seq<string>, v: string, n: nat) {
    exists w :: Way(edges, allowed, w) && w[0] in seeds && w[|w| - 1] == v && |w| == n + 1
  }

  // The least number of hops from a seed to `v`.
  ghost predicate LeastHops(edges: EdgesByDataset, allowed: Keep, seeds: seq<string>, v: string, n: nat) {
    Reaches(edges, allowed, seeds, v, n) && forall m: nat :: m < n ==> !Reaches(edges, allowed, seeds, v, m)
  }

  lemma ReachesNext(edges: EdgesByDataset, allowed: Keep, seeds: seq<string>, u: string, v: string, n: nat)
    requires Reaches(edges, allowed, seeds, u, n) && Hop(edges, allowed, u, v)
    ensures Reaches(edges, allowed, seeds, v, n + 1)
  {
    var w :| Way(edges, allowed, w) && w[0] in seeds && w[|w| - 1] == u && |w| == n + 1;
    var x := w + [v];
    forall i: nat | i + 1 < |x| ensures HopAt(edges, allowed, x, i) {
      if i + 1 < |w| { assert HopAt(edges, allowed, w, i); }
    }
    assert Way(edges, allowed, x);
  }

  lemma ReachesBefore(edges: EdgesByDataset, allowed: Keep, seeds: seq<string>, v: string, n: nat) returns (u: string)
    requires Reaches(edges, allowed, seeds, v, n) && n > 0
    ensures Reaches(edges, allowed, seeds, u, n - 1) && Hop(edges, allowed, u, v)
  {
    var w :| Way(edges, allowed, w) && w[0] in seeds && w[|w| - 1] == v && |w| == n + 1;
    var x := w[..n];
    u := w[n - 1];
    assert HopAt(edges, allowed, w, n - 1);
    forall i: nat | i + 1 < |x| ensures HopAt(edges, allowed, x, i) {
      assert HopAt(edges, allowed, w, i);
    }
    assert Way(edges, allowed, x) && x[|x| - 1] == u;
  }

  lemma SeedsReach(edges: EdgesByDataset, allowed: Keep, seeds: seq<string>, v: string)
    ensures Reaches(edges, allowed, seeds, v, 0) <==> v in seeds
  {
    if v in seeds {
      assert Way(edges, allowed, [v]);
    }
  }

  // ---------- level by level ----------

  type Distances = map<string, nat>

  // Everything at most `level` hops away has its least distance.
  ghost predicate Levelled(edges: EdgesByDataset, allowed: Keep, seeds: seq<string>, distance: Distances, level: nat) {
    && (forall v :: v in distance ==> distance[v] <= level && LeastHops(edges, allowed, seeds, v, distance[v]))
    && (forall v, n: nat :: n <= level && Reaches(edges, allowed, seeds, v, n) ==> v in distance)
  }

  ghost predicate Frontier(distance: Distances, frontier: seq<string>, level: nat) {
    forall v :: v in frontier <==> v in distance && distance[v] == level
  }

  // The targets of the first `n` allowed edges.
  ghost predicate Targets(es: seq<DirectedEdge>, allowed: Keep, v: string) {
    exists e :: e in es && allowed(e) && e.target.nodeId == v
  }

  // While the frontier is worked through: what has been added since `before`, all at the next level.
  ghost predicate Adding(before: Distances, distance: Distances, following: seq<string>, level: nat) {
    && (forall v :: v in before ==> v in distance && distance[v] == before[v])
    && (forall v :: v in distance && v !in before ==> distance[v] == level + 1)
    && (forall v :: v in following <==> v in distance && v !in before)
  }

  // Look at every edge leaving one dataset.
  method Scan(es: seq<DirectedEdge>, allowed: Keep, ghost before: Distances, distance: Distances,
              following: seq<string>, level: nat)
    returns (distance': Distances, following': seq<string>)
    requires Adding(before, distance, following, level)
    ensures Adding(before, distance', following', level)
    ensures forall v :: v in distance' <==> v in distance || Targets(es, allowed, v)
  {
    distance', following' := distance, following;
    for n := 0 to |es|
      invariant Adding(before, distance', following', level)
      invariant forall v :: v in distance' <==> v in distance || Targets(es[..n], allowed, v)
    {
      var target := es[n].target.nodeId;
      TargetsNext(es, n, allowed);
      if allowed(es[n]) && target !in distance' {
        distance' := distance'[target := level + 1];
        following' := following' + [target];
      }
    }
    assert es[..|es|] == es;
  }

  lemma TargetsNext(es: seq<DirectedEdge>, n: nat, allowed: Keep)
    requires n < |es|
    ensures forall v ::
              Targets(es[..n + 1], allowed, v) <==>
                  Targets(es[..n], allowed, v) || (allowed(es[n]) && es[n].target.nodeId == v)
  {
    assert es[..n + 1] == es[..n] + [es[n]];
    forall v
      ensures Targets(es[..n + 1], allowed, v) <==>
                Targets(es[..n], allowed, v) || (allowed(es[n]) && es[n].target.nodeId == v)
    {
      if Targets(es[..n], allowed, v) {
        var e :| e in es[..n] && allowed(e) && e.target.nodeId == v;
        assert e in es[..n + 1];
      }
      if allowed(es[n]) && es[n].target.nodeId == v {
        assert es[n] in es[..n + 1];
      }
    }
  }

  ghost predicate HopsFrom(edges: EdgesByDataset, allowed: Keep, frontier: seq<string>, v: string) {
    exists u :: u in frontier && Hop(edges, allowed, u, v)
  }

  // One level: everything a hop from the frontier that has no distance yet.
  method ScanLevel(edges: EdgesByDataset, allowed: Keep, ghost seeds: seq<string>, distance: Distances,
                   frontier: seq<string>, level: nat)
    returns (distance': Distances, following: seq<string>)
    requires Levelled(edges, allowed, seeds, distance, level) && Frontier(distance, frontier, level)
    ensures Levelled(edges, allowed, seeds, distance', level + 1) && Frontier(distance', following, level + 1)
  {
    distance', following := distance, [];
    for n := 0 to |frontier|
      invariant Adding(distance, distance', following, level)
      invariant forall v :: v in distance' <==> v in distance || HopsFrom(edges, allowed, frontier[..n], v)
    {
      distance', following := Scan(Leaving(edges, frontier[n]), allowed, distance, distance', following, level);
      HopsFromNext(edges, allowed, frontier, n);
    }
    assert frontier[..|frontier|] == frontier;
    NextLevel(edges, allowed, seeds, distance, distance', frontier, following, level);
  }

  lemma HopsFromNext(edges: EdgesByDataset, allowed: Keep, frontier: seq<string>, n: nat)
    requires n < |frontier|
    ensures forall v :: HopsFrom(edges, allowed, frontier[..n + 1], v) <==>
              HopsFrom(edges, allowed, frontier[..n], v) || Targets(Leaving(edges, frontier[n]), allowed, v)
  {
    assert frontier[..n + 1] == frontier[..n] + [frontier[n]];
    forall v ensures HopsFrom(edges, allowed, frontier[..n + 1], v) <==>
              HopsFrom(edges, allowed, frontier[..n], v) || Targets(Leaving(edges, frontier[n]), allowed, v)
    {
      assert Targets(Leaving(edges, frontier[n]), allowed, v) <==> Hop(edges, allowed, frontier[n], v);
      assert frontier[n] in frontier[..n + 1];
      if HopsFrom(edges, allowed, frontier[..n], v) {
        var u :| u in frontier[..n] && Hop(edges, allowed, u, v);
        assert u in frontier[..n + 1];
      }
    }
  }

  lemma NextLevel(edges: EdgesByDataset, allowed: Keep, seeds: seq<string>, distance: Distances, distance': Distances,
                  frontier: seq<string>, following: seq<string>, level: nat)
    requires Levelled(edges, allowed, seeds, distance, level) && Frontier(distance, frontier, level)
    requires Adding(distance, distance', following, level)
    requires forall v :: v in distance' <==> v in distance || HopsFrom(edges, allowed, frontier, v)
    ensures Levelled(edges, allowed, seeds, distance', level + 1) && Frontier(distance', following, level + 1)
  {
    forall v | v in distance' ensures distance'[v] <= level + 1 && LeastHops(edges, allowed, seeds, v, distance'[v]) {
      if v !in distance {
        var u :| u in frontier && Hop(edges, allowed, u, v);
        ReachesNext(edges, allowed, seeds, u, v, level);
      }
    }
    forall v, n: nat | n <= level + 1 && Reaches(edges, allowed, seeds, v, n) ensures v in distance' {
      if n == level + 1 && v !in distance {
        var u := ReachesBefore(edges, allowed, seeds, v, n);
        assert u in distance;
        if distance[u] < level {
          ReachesNext(edges, allowed, seeds, u, v, distance[u]);
        }
        assert u in frontier;
      }
    }
  }

  // Least distances of everything within `depth` hops of a seed.
  method Search(edges: EdgesByDataset, allowed: Keep, seeds: seq<string>, depth: nat) returns (distance: Distances)
    ensures Levelled(edges, allowed, seeds, distance, depth)
  {
    distance := map seed | seed in seeds :: 0;
    var frontier := seeds;
    forall v ensures Reaches(edges, allowed, seeds, v, 0) <==> v in seeds {
      SeedsReach(edges, allowed, seeds, v);
    }
    for level := 0 to depth
      invariant Levelled(edges, allowed, seeds, distance, level) && Frontier(distance, frontier, level)
    {
      distance, frontier := ScanLevel(edges, allowed, seeds, distance, frontier, level);
    }
  }

  // ---------- the answer ----------

  datatype Neighbourhood = Neighbourhood(datasets: seq<(string, nat)>, groups: map<string, seq<EdgeGroup>>,
                                         truncated: bool)

  // How an expansion is bounded.
  datatype Bounds = Bounds(depth: nat, maxNodes: Option<nat>, limit: Option<nat>)

  function DistanceKey(item: (string, nat)): Key { Tuple([Num(item.1), Text(item.0)]) }

  ghost predicate Within(edges: EdgesByDataset, allowed: Keep, seeds: seq<string>, depth: nat, item: (string, nat)) {
    item.1 <= depth && LeastHops(edges, allowed, seeds, item.0, item.1)
  }

  // All datasets within the depth with their least distances, nearest first, then by dataset ID.
  ghost predicate InOrder(edges: EdgesByDataset, allowed: Keep, seeds: seq<string>, depth: nat,
                          ordered: seq<(string, nat)>) {
    && Ascending(ordered, DistanceKey) && NoDuplicates(ordered)
    && forall item :: item in ordered <==> Within(edges, allowed, seeds, depth, item)
  }

  lemma HopsUnique(edges: EdgesByDataset, allowed: Keep, seeds: seq<string>, v: string, m: nat, n: nat)
    requires LeastHops(edges, allowed, seeds, v, m) && LeastHops(edges, allowed, seeds, v, n)
    ensures m == n
  {}

  lemma LevelledItems(edges: EdgesByDataset, allowed: Keep, seeds: seq<string>, distance: Distances, depth: nat)
    requires Levelled(edges, allowed, seeds, distance, depth)
    ensures forall item :: item in distance.Items <==> Within(edges, allowed, seeds, depth, item)
  {
    forall item: (string, nat) ensures item in distance.Items <==> Within(edges, allowed, seeds, depth, item) {
      if Within(edges, allowed, seeds, depth, item) {
        assert item.0 in distance;
        HopsUnique(edges, allowed, seeds, item.0, item.1, distance[item.0]);
        assert item == (item.0, distance[item.0]);
      }
    }
  }

  lemma DistanceKeyDistinguishes(items: set<(string, nat)>)
    ensures Distinguishes(DistanceKey, items)
  {
    forall x, y | x in items && y in items && DistanceKey(x) == DistanceKey(y) ensures x == y {
      assert DistanceKey(x).items[0] == Num(x.1) && DistanceKey(x).items[1] == Text(x.0);
      assert DistanceKey(y).items[0] == Num(y.1) && DistanceKey(y).items[1] == Text(y.0);
    }
  }

  method Ordered(edges: EdgesByDataset, allowed: Keep, seeds: seq<string>, depth: nat)
    returns (ordered: seq<(string, nat)>)
    ensures InOrder(edges, allowed, seeds, depth, ordered)
  {
    var distance := Search(edges, allowed, seeds, depth);
    LevelledItems(edges, allowed, seeds, distance, depth);
    DistanceKeyDistinguishes(distance.Items);
    ordered := Sorted(distance.Items, DistanceKey);
  }

  function Kept(selected: seq<(string, nat)>): set<string> {
    set item | item in selected :: item.0
  }

  function IsKept(kept: set<string>): Keep {
    (e: DirectedEdge) => e.target.nodeId in kept
  }

  // The groups of one expanded dataset: all allowed edges counted, listed up to the limit if they
  // lead to a kept dataset.
  ghost predicate Expanded(edges: EdgesByDataset, allowed: Keep, limit: Option<nat>, kept: set<string>, node: string,
                           groups: seq<EdgeGroup>) {
    Groups(groups, Filter(Leaving(edges, node), allowed), limit, IsKept(kept))
  }

  ghost predicate Complete(groups: map<string, seq<EdgeGroup>>) {
    forall node, g :: node in groups && g in groups[node] ==> !g.Truncated()
  }

  // Which of the selected datasets have groups.
  ghost predicate AllExpanded(edges: EdgesByDataset, allowed: Keep, bounds: Bounds, selected: seq<(string, nat)>,
                              n: nat, groups: map<string, seq<EdgeGroup>>)
    requires n <= |selected|
  {
    && (forall node :: node in groups ==> Expanded(edges, allowed, bounds.limit, Kept(selected), node, groups[node]))
    && (forall node :: node in groups <==> exists i ::
          0 <= i < n && selected[i].0 == node && selected[i].1 < bounds.depth)
  }

  ghost predicate AdjoiningAll(edges: EdgesByDataset) {
    forall node {:trigger Leaving(edges, node)} :: Adjoining(Leaving(edges, node))
  }

  ghost predicate PlaceOf(edges: seq<DirectedEdge>, n: nat, e: DirectedEdge) { n < |edges| && edges[n] == e }

  // `at` are the places of the edges kept, in order.
  ghost predicate ArePlaces(edges: seq<DirectedEdge>, keep: Keep, at: seq<nat>) {
    && |at| == |Filter(edges, keep)|
    && (forall i {:trigger PlaceOf(edges, at[i], Filter(edges, keep)[i])} :: 0 <= i < |at| ==>
          PlaceOf(edges, at[i], Filter(edges, keep)[i]))
    && (forall i, j :: 0 <= i < j < |at| ==> at[i] < at[j])
  }

  ghost predicate AllPlaces(edges: seq<DirectedEdge>, keep: Keep, at: seq<nat>) {
    forall n: nat :: n < |edges| && keep(edges[n]) ==> n in at
  }

  lemma PlaceStays(edges: seq<DirectedEdge>, init: seq<DirectedEdge>, e: DirectedEdge, n: nat, x: DirectedEdge)
    requires edges == init + [e] && PlaceOf(init, n, x)
    ensures PlaceOf(edges, n, x)
  {}

  lemma PlacesNext(edges: seq<DirectedEdge>, init: seq<DirectedEdge>, e: DirectedEdge, keep: Keep, at: seq<nat>,
                   after: seq<nat>)
    requires edges == init + [e] && ArePlaces(init, keep, at) && after == if keep(e) then at + [|init|] else at
    ensures ArePlaces(edges, keep, after)
  {
    var before, now := Filter(init, keep), Filter(edges, keep);
    assert now == if keep(e) then before + [e] else before by { FilterNext(init, e, keep); }
    forall i | 0 <= i < |after| ensures PlaceOf(edges, after[i], now[i]) {
      if i < |at| {
        assert after[i] == at[i] && now[i] == before[i];
        PlaceStays(edges, init, e, at[i], before[i]);
      }
    }
    forall i, j | 0 <= i < j < |after| ensures after[i] < after[j] {
      assert PlaceOf(init, at[i], before[i]);
    }
  }

  lemma AllPlacesNext(edges: seq<DirectedEdge>, init: seq<DirectedEdge>, e: DirectedEdge, keep: Keep, at: seq<nat>,
                      after: seq<nat>)
    requires edges == init + [e] && AllPlaces(init, keep, at) && after == if keep(e) then at + [|init|] else at
    ensures AllPlaces(edges, keep, after)
  {
    forall n: nat | n < |edges| && keep(edges[n]) ensures n in after {
      if n < |init| {
        assert edges[n] == init[n] && n in at;
      } else {
        assert after[|at|] == n;
      }
    }
  }

  lemma {:induction false} FilterPlaces(edges: seq<DirectedEdge>, keep: Keep) returns (at: seq<nat>)
    ensures ArePlaces(edges, keep, at) && AllPlaces(edges, keep, at)
  {
    if edges == [] {
      at := [];
    } else {
      var init, last := edges[..|edges| - 1], edges[|edges| - 1];
      var before := FilterPlaces(init, keep);
      at := if keep(last) then before + [|init|] else before;
      PlacesNext(edges, init, last, keep, before, at);
      AllPlacesNext(edges, init, last, keep, before, at);
    }
  }

  // Leaving out edges keeps those of one definition together.
  lemma FilterKeepsAdjoining(edges: seq<DirectedEdge>, keep: Keep)
    requires Adjoining(edges)
    ensures Adjoining(Filter(edges, keep))
  {
    var at := FilterPlaces(edges, keep);
    var few := Filter(edges, keep);
    forall i: nat, j: nat, k: nat | i < j < k < |few| && SourceAt(few, i) == SourceAt(few, k)
      ensures SourceAt(few, j) == SourceAt(few, i)
    {
      assert PlaceOf(edges, at[i], few[i]) && PlaceOf(edges, at[j], few[j]) && PlaceOf(edges, at[k], few[k]);
      assert SourceAt(edges, at[i]) == few[i].source && SourceAt(edges, at[j]) == few[j].source
               && SourceAt(edges, at[k]) == few[k].source;
    }
  }

  predicate AnyTruncated(groups: seq<EdgeGroup>) {
    exists i :: 0 <= i < |groups| && groups[i].Truncated()
  }

  // Group the edges of every selected dataset closer than the depth.
  method GroupAll(edges: EdgesByDataset, allowed: Keep, bounds: Bounds, selected: seq<(string, nat)>, cut: bool)
    returns (groups: map<string, seq<EdgeGroup>>, truncated: bool)
    requires AdjoiningAll(edges) && forall i, j :: 0 <= i < j < |selected| ==> selected[i].0 != selected[j].0
    ensures AllExpanded(edges, allowed, bounds, selected, |selected|, groups)
    ensures truncated <==> cut || !Complete(groups)
  {
    groups, truncated := map[], cut;
    for n := 0 to |selected|
      invariant AllExpanded(edges, allowed, bounds, selected, n, groups)
      invariant truncated <==> cut || !Complete(groups)
    {
      var (node, nodeDistance) := selected[n];
      if nodeDistance >= bounds.depth {
        continue;
      }
      assert node !in groups;
      var own := Filter(Leaving(edges, node), allowed);
      assert Adjoining(Leaving(edges, node));
      FilterKeepsAdjoining(Leaving(edges, node), allowed);
      var found := GroupEdges(own, bounds.limit, IsKept(Kept(selected)));
      CompleteNext(groups, node, found);
      groups := groups[node := found];
      truncated := truncated || AnyTruncated(found);
    }
  }

  lemma CompleteNext(groups: map<string, seq<EdgeGroup>>, node: string, found: seq<EdgeGroup>)
    requires node !in groups
    ensures Complete(groups[node := found]) <==> Complete(groups) && !AnyTruncated(found)
  {
    var after := groups[node := found];
    if Complete(after) {
      forall x, g: EdgeGroup | x in groups && g in groups[x] ensures !g.Truncated() {
        assert x in after && g in after[x];
      }
      forall i | 0 <= i < |found| ensures !found[i].Truncated() {
        assert node in after && found[i] in after[node];
      }
    }
    if Complete(groups) && !AnyTruncated(found) {
      forall x, g: EdgeGroup | x in after && g in after[x] ensures !g.Truncated() {
        if x == node {
          var i :| 0 <= i < |found| && found[i] == g;
        }
      }
    }
  }

  // ---------- with every dataset's edges ----------

  function Referenced(seeds: seq<string>, groups: map<string, seq<EdgeGroup>>): set<string> {
    (set s | s in seeds) + set node, g, e | node in groups && g in groups[node] && e in g.edges :: e.target.nodeId
  }

  function Among(selected: seq<(string, nat)>, names: set<string>): (r: seq<(string, nat)>)
    ensures forall item :: item in r <==> item in selected && item.0 in names
  {
    if selected == [] then []
    else
      var before, last := Among(selected[..|selected| - 1], names), selected[|selected| - 1];
      if last.0 in names then before + [last] else before
  }

  // What an expansion returns: the nearest datasets, up to the cap, and the groups of those below
  // the depth, `truncated` exactly when a dataset within the depth is not selected or an allowed edge of an
  // expanded dataset is listed less often than it leaves.
  ghost predicate Expands(edges: EdgesByDataset, allowed: Keep, seeds: seq<string>, bounds: Bounds,
                          referencedOnly: bool, ordered: seq<(string, nat)>, r: Neighbourhood) {
    && InOrder(edges, allowed, seeds, bounds.depth, ordered)
    && var selected := Selected(ordered, bounds.maxNodes);
    && AllExpanded(edges, allowed, bounds, selected, |selected|, r.groups)
    && (r.truncated <==> (exists item :: item in ordered && item !in selected) || SomeCut(edges, allowed, r.groups))
    && r.datasets == if referencedOnly then Among(selected, Referenced(seeds, r.groups)) else selected
  }

  function Selected(ordered: seq<(string, nat)>, maxNodes: Option<nat>): seq<(string, nat)> {
    if maxNodes.Some? && maxNodes.value < |ordered| then ordered[..maxNodes.value] else ordered
  }

  // `expand`: `ordered` is everything within the depth, nearest first.
  method Expand(edges: EdgesByDataset, seeds: seq<string>, bounds: Bounds, allowed: Keep, referencedOnly: bool)
    returns (r: Neighbourhood)
    requires AdjoiningAll(edges)
    ensures exists ordered :: Expands(edges, allowed, seeds, bounds, referencedOnly, ordered, r)
  {
    var ordered := Ordered(edges, allowed, seeds, bounds.depth);
    var selected := Selected(ordered, bounds.maxNodes);
    OneDistanceEach(edges, allowed, seeds, bounds.depth, ordered);
    var groups, truncated := GroupAll(edges, allowed, bounds, selected, |selected| < |ordered|);
    SelectedShort(ordered, bounds.maxNodes);
    IncompleteLeavesOut(edges, allowed, bounds.limit, Kept(selected), groups);
    var datasets := if referencedOnly then Among(selected, Referenced(seeds, groups)) else selected;
    r := Neighbourhood(datasets, groups, truncated);
    assert Expands(edges, allowed, seeds, bounds, referencedOnly, ordered, r);
  }

  lemma OneDistanceEach(edges: EdgesByDataset, allowed: Keep, seeds: seq<string>, depth: nat,
                        ordered: seq<(string, nat)>)
    requires InOrder(edges, allowed, seeds, depth, ordered)
    ensures forall i, j :: 0 <= i < j < |ordered| ==> ordered[i].0 != ordered[j].0
  {
    forall i, j | 0 <= i < j < |ordered| ensures ordered[i].0 != ordered[j].0 {
      assert ordered[i] in ordered && ordered[j] in ordered && ordered[i] != ordered[j];
      if ordered[i].0 == ordered[j].0 {
        HopsUnique(edges, allowed, seeds, ordered[i].0, ordered[i].1, ordered[j].1);
      }
    }
  }

  // ---------- what a caller can rely on ----------

  // Cutting at the cap never strands a dataset: a kept dataset that is no seed has a kept neighbour
  // one hop nearer.
  lemma PredecessorKept(edges: EdgesByDataset, allowed: Keep, seeds: seq<string>, bounds: Bounds,
                        ordered: seq<(string, nat)>, v: string, n: nat)
    returns (u: string)
    requires InOrder(edges, allowed, seeds, bounds.depth, ordered)
    requires (v, n) in Selected(ordered, bounds.maxNodes) && v !in seeds
    ensures n > 0 && (u, n - 1) in Selected(ordered, bounds.maxNodes) && Hop(edges, allowed, u, v)
  {
    var selected := Selected(ordered, bounds.maxNodes);
    var i :| 0 <= i < |selected| && selected[i] == (v, n);
    assert ordered[i] == (v, n) && (v, n) in ordered;
    SeedsReach(edges, allowed, seeds, v);
    u := ReachesBefore(edges, allowed, seeds, v, n);
    forall m: nat | m < n - 1 ensures !Reaches(edges, allowed, seeds, u, m) {
      if Reaches(edges, allowed, seeds, u, m) { ReachesNext(edges, allowed, seeds, u, v, m); }
    }
    assert Within(edges, allowed, seeds, bounds.depth, (u, n - 1));
    var j :| 0 <= j < |ordered| && ordered[j] == (u, n - 1);
    NearerFirst(ordered, i, j);
  }

  lemma NearerFirst(ordered: seq<(string, nat)>, i: nat, j: nat)
    requires Ascending(ordered, DistanceKey) && i < |ordered| && j < |ordered| && ordered[j].1 < ordered[i].1
    ensures j < i
  {
    if i < j {
      var a, b := DistanceKey(ordered[i]), DistanceKey(ordered[j]);
      assert Leq(a, b) && a.items[0] == Num(ordered[i].1) && b.items[0] == Num(ordered[j].1);
      FirstKeyLeq(a, b, ordered[i].1, ordered[j].1);
    }
  }

  // Every listed directed edge is allowed, leaves its dataset and ends at a returned dataset.
  lemma ListedEndsReturned(edges: EdgesByDataset, allowed: Keep, seeds: seq<string>, bounds: Bounds,
                           referencedOnly: bool, ordered: seq<(string, nat)>, r: Neighbourhood, node: string,
                           g: EdgeGroup, e: DirectedEdge)
    requires Expands(edges, allowed, seeds, bounds, referencedOnly, ordered, r)
    requires node in r.groups && g in r.groups[node] && e in g.edges
    ensures e in Leaving(edges, node) && allowed(e) && e.source == g.source
    ensures exists n :: (e.target.nodeId, n) in r.datasets
  {
    var selected := Selected(ordered, bounds.maxNodes);
    var own := Filter(Leaving(edges, node), allowed);
    assert Expanded(edges, allowed, bounds.limit, Kept(selected), node, r.groups[node]);
    var i :| 0 <= i < |r.groups[node]| && r.groups[node][i] == g;
    assert GroupFits(g, own, bounds.limit, IsKept(Kept(selected)));
    assert e in Filter(Of(own, g.source), IsKept(Kept(selected)));
    assert e.target.nodeId in Kept(selected);
    var item :| item in selected && item.0 == e.target.nodeId;
    assert e.target.nodeId in Referenced(seeds, r.groups);
    assert item == (e.target.nodeId, item.1) && item in r.datasets;
  }

  // A group counts exactly the allowed edges of its definition, and every definition that an
  // allowed edge leaves has one group.
  lemma CountsExact(edges: EdgesByDataset, allowed: Keep, seeds: seq<string>, bounds: Bounds, referencedOnly: bool,
                    ordered: seq<(string, nat)>, r: Neighbourhood, node: string, e: DirectedEdge)
    requires Expands(edges, allowed, seeds, bounds, referencedOnly, ordered, r)
    requires node in r.groups && e in Leaving(edges, node) && allowed(e)
    ensures exists i :: 0 <= i < |r.groups[node]| && r.groups[node][i].source == e.source
              && r.groups[node][i].edgeCount == |Of(Filter(Leaving(edges, node), allowed), e.source)|
    ensures DistinctSources(r.groups[node])
  {
    var selected := Selected(ordered, bounds.maxNodes);
    var own := Filter(Leaving(edges, node), allowed);
    assert Expanded(edges, allowed, bounds.limit, Kept(selected), node, r.groups[node]);
    assert e in own && HasGroup(r.groups[node], e.source);
    var i :| 0 <= i < |r.groups[node]| && r.groups[node][i].source == e.source;
    assert GroupFits(r.groups[node][i], own, bounds.limit, IsKept(Kept(selected)));
  }

  // ---------- what is listed and what is left out ----------

  // The edges a group may list.
  function Eligible(allowed: Keep, source: Endpoint, kept: set<string>): Keep {
    (e: DirectedEdge) => allowed(e) && e.source == source && e.target.nodeId in kept
  }

  lemma {:induction false} FiltersCombine(es: seq<DirectedEdge>, allowed: Keep, source: Endpoint, kept: set<string>)
    ensures Filter(Of(Filter(es, allowed), source), IsKept(kept)) == Filter(es, Eligible(allowed, source, kept))
  {
    if es == [] {
    } else {
      var init, e := es[..|es| - 1], es[|es| - 1];
      FiltersCombine(init, allowed, source, kept);
      assert es == init + [e];
      FilterNext(init, e, allowed);
      FilterNext(init, e, Eligible(allowed, source, kept));
      OfNext(Filter(init, allowed), e, source);
      FilterNext(Of(Filter(init, allowed), source), e, IsKept(kept));
    }
  }

  // `listed` are the edges at the places `at`, in order; whatever else is eligible comes later, and only
  // because the limit is reached.
  ghost predicate ListsFirst(es: seq<DirectedEdge>, eligible: Keep, limit: Option<nat>, listed: seq<DirectedEdge>,
                             at: seq<nat>) {
    && |at| == |listed| && (limit.Some? ==> |listed| <= limit.value)
    && (forall i, j :: 0 <= i < j < |at| ==> at[i] < at[j])
    && (forall i :: 0 <= i < |at| ==> at[i] < |es| && es[at[i]] == listed[i] && eligible(listed[i]))
    && (forall n: nat :: n < |es| && eligible(es[n]) && n !in at ==>
          limit.Some? && |listed| == limit.value && forall i :: 0 <= i < |at| ==> at[i] < n)
  }

  lemma FirstPlaces(es: seq<DirectedEdge>, eligible: Keep, limit: Option<nat>) returns (at: seq<nat>)
    ensures ListsFirst(es, eligible, limit, AtMost(Filter(es, eligible), limit), at)
  {
    var all := FilterPlaces(es, eligible);
    var few := AtMost(Filter(es, eligible), limit);
    at := all[..|few|];
    PlacesEligible(es, eligible, all, |few|);
    LaterPlaces(es, eligible, all, |few|);
  }

  lemma PlacesEligible(es: seq<DirectedEdge>, eligible: Keep, all: seq<nat>, count: nat)
    requires ArePlaces(es, eligible, all) && count <= |all|
    ensures forall i :: 0 <= i < count ==>
              all[i] < |es| && es[all[i]] == Filter(es, eligible)[i] && eligible(es[all[i]])
  {
    forall i | 0 <= i < count
      ensures all[i] < |es| && es[all[i]] == Filter(es, eligible)[i] && eligible(es[all[i]])
    {
      assert PlaceOf(es, all[i], Filter(es, eligible)[i]);
      assert Filter(es, eligible)[i] in Filter(es, eligible);
    }
  }

  lemma LaterPlaces(es: seq<DirectedEdge>, eligible: Keep, all: seq<nat>, count: nat)
    requires ArePlaces(es, eligible, all) && AllPlaces(es, eligible, all) && count <= |all|
    ensures forall n: nat :: n < |es| && eligible(es[n]) && n !in all[..count] ==>
              count < |all| && forall i :: 0 <= i < count ==> all[i] < n
  {
    forall n: nat | n < |es| && eligible(es[n]) && n !in all[..count]
      ensures count < |all| && forall i :: 0 <= i < count ==> all[i] < n
    {
      assert all == all[..count] + all[count..] && n in all[count..];
      var k :| 0 <= k < |all| - count && all[count..][k] == n;
      assert all[count + k] == n;
    }
  }

  // Each group lists the first eligible edges of its definition, up to the limit: those allowed that end at a
  // selected dataset.
  lemma GroupListsFirst(edges: EdgesByDataset, allowed: Keep, seeds: seq<string>, bounds: Bounds, referencedOnly: bool,
                        ordered: seq<(string, nat)>, r: Neighbourhood, node: string, g: EdgeGroup)
    returns (at: seq<nat>)
    requires Expands(edges, allowed, seeds, bounds, referencedOnly, ordered, r)
    requires node in r.groups && g in r.groups[node]
    ensures ListsFirst(Leaving(edges, node), Eligible(allowed, g.source, Kept(Selected(ordered, bounds.maxNodes))),
                       bounds.limit, g.edges, at)
  {
    var selected := Selected(ordered, bounds.maxNodes);
    assert Expanded(edges, allowed, bounds.limit, Kept(selected), node, r.groups[node]);
    var i :| 0 <= i < |r.groups[node]| && r.groups[node][i] == g;
    assert GroupFits(g, Filter(Leaving(edges, node), allowed), bounds.limit, IsKept(Kept(selected)));
    FiltersCombine(Leaving(edges, node), allowed, g.source, Kept(selected));
    at := FirstPlaces(Leaving(edges, node), Eligible(allowed, g.source, Kept(selected)), bounds.limit);
  }

  function Times(es: seq<DirectedEdge>, e: DirectedEdge): nat { multiset(es)[e] }

  lemma {:induction false} FilterTimes(es: seq<DirectedEdge>, keep: Keep, e: DirectedEdge)
    ensures Times(Filter(es, keep), e) == if keep(e) then Times(es, e) else 0
  {
    if es == [] {
    } else {
      var init, last := es[..|es| - 1], es[|es| - 1];
      FilterTimes(init, keep, e);
      assert es == init + [last];
    }
  }

  lemma {:induction false} OfTimes(es: seq<DirectedEdge>, source: Endpoint, e: DirectedEdge)
    ensures Times(Of(es, source), e) == if e.source == source then Times(es, e) else 0
  {
    if es == [] {
    } else {
      var init, last := es[..|es| - 1], es[|es| - 1];
      OfTimes(init, source, e);
      assert es == init + [last];
    }
  }

  lemma AtMostTimes(es: seq<DirectedEdge>, limit: Option<nat>, e: DirectedEdge)
    ensures Times(AtMost(es, limit), e) <= Times(es, e)
  {
    var few := AtMost(es, limit);
    assert es == few + es[|few|..];
  }

  // Of two lists with no element more often in the first, the first is shorter exactly if some element is
  // less often in it.
  lemma ShorterByTimes(few: seq<DirectedEdge>, all: seq<DirectedEdge>)
    requires forall e :: Times(few, e) <= Times(all, e)
    ensures |few| < |all| <==> exists e :: Times(few, e) < Times(all, e)
  {
    var a, b := multiset(few), multiset(all);
    forall e ensures a[e] <= b[e] {
      assert Times(few, e) <= Times(all, e);
    }
    assert b == a + (b - a);
    if forall e :: Times(few, e) >= Times(all, e) {
      forall e ensures a[e] == b[e] {
        assert Times(few, e) >= Times(all, e);
      }
      assert a == b;
    } else {
      var e :| Times(few, e) < Times(all, e);
      assert (b - a)[e] > 0;
    }
  }

  // An allowed edge of the group's definition is listed less often than it leaves the dataset.
  ghost predicate LeavesOut(edges: EdgesByDataset, allowed: Keep, node: string, g: EdgeGroup, e: DirectedEdge) {
    allowed(e) && e.source == g.source && Times(g.edges, e) < Times(Leaving(edges, node), e)
  }

  lemma GroupLeavesOut(edges: EdgesByDataset, allowed: Keep, limit: Option<nat>, kept: set<string>, node: string,
                       g: EdgeGroup)
    requires GroupFits(g, Filter(Leaving(edges, node), allowed), limit, IsKept(kept))
    ensures g.Truncated() <==> IsCut(edges, allowed, node, g)
  {
    var own := Filter(Leaving(edges, node), allowed);
    var all := Of(own, g.source);
    forall e
      ensures Times(g.edges, e) <= Times(all, e)
      ensures Times(all, e) == if allowed(e) && e.source == g.source then Times(Leaving(edges, node), e) else 0
    {
      OfTimes(own, g.source, e);
      FilterTimes(Leaving(edges, node), allowed, e);
      FilterTimes(all, IsKept(kept), e);
      AtMostTimes(Filter(all, IsKept(kept)), limit, e);
    }
    ShorterByTimes(g.edges, all);
    if e :| Times(g.edges, e) < Times(all, e) {
      assert LeavesOut(edges, allowed, node, g, e);
    }
    if e :| LeavesOut(edges, allowed, node, g, e) {
      assert Times(g.edges, e) < Times(all, e);
    }
  }

  ghost predicate IsCut(edges: EdgesByDataset, allowed: Keep, node: string, g: EdgeGroup) {
    exists e :: LeavesOut(edges, allowed, node, g, e)
  }

  ghost predicate SomeCut(edges: EdgesByDataset, allowed: Keep, groups: map<string, seq<EdgeGroup>>) {
    exists node, g :: node in groups && g in groups[node] && IsCut(edges, allowed, node, g)
  }

  lemma IncompleteLeavesOut(edges: EdgesByDataset, allowed: Keep, limit: Option<nat>, kept: set<string>,
                            groups: map<string, seq<EdgeGroup>>)
    requires forall node :: node in groups ==> Expanded(edges, allowed, limit, kept, node, groups[node])
    ensures !Complete(groups) <==> SomeCut(edges, allowed, groups)
  {
    forall node, g: EdgeGroup | node in groups && g in groups[node]
      ensures g.Truncated() <==> IsCut(edges, allowed, node, g)
    {
      assert Expanded(edges, allowed, limit, kept, node, groups[node]);
      var i :| 0 <= i < |groups[node]| && groups[node][i] == g;
      GroupLeavesOut(edges, allowed, limit, kept, node, g);
    }
  }

  lemma SelectedShort(ordered: seq<(string, nat)>, maxNodes: Option<nat>)
    requires NoDuplicates(ordered)
    ensures |Selected(ordered, maxNodes)| < |ordered| <==>
            exists item :: item in ordered && item !in Selected(ordered, maxNodes)
  {
    var selected := Selected(ordered, maxNodes);
    if |selected| < |ordered| {
      assert ordered[|selected|] in ordered && ordered[|selected|] !in selected;
    }
  }

  // ---------- which datasets are returned ----------

  // The nearest ones, as many as the cap allows.
  lemma SelectedNearest(ordered: seq<(string, nat)>, maxNodes: Option<nat>)
    ensures Selected(ordered, maxNodes) <= ordered
    ensures |Selected(ordered, maxNodes)| < |ordered| ==>
              maxNodes.Some? && |Selected(ordered, maxNodes)| == maxNodes.value
    ensures maxNodes.Some? ==> |Selected(ordered, maxNodes)| <= maxNodes.value
  {}

  ghost predicate EndsListedEdge(groups: map<string, seq<EdgeGroup>>, name: string) {
    exists node, g, e :: node in groups && g in groups[node] && e in g.edges && e.target.nodeId == name
  }

  // All of those selected, or, when only referenced ones are asked for, seeds and ends of listed edges.
  lemma ReturnedExactly(edges: EdgesByDataset, allowed: Keep, seeds: seq<string>, bounds: Bounds,
                        referencedOnly: bool, ordered: seq<(string, nat)>, r: Neighbourhood, item: (string, nat))
    requires Expands(edges, allowed, seeds, bounds, referencedOnly, ordered, r)
    ensures item in r.datasets <==>
            && item in Selected(ordered, bounds.maxNodes)
            && (referencedOnly ==> item.0 in seeds || EndsListedEdge(r.groups, item.0))
  {}

  lemma {:induction false} AmongAscends(selected: seq<(string, nat)>, names: set<string>)
    requires Ascending(selected, DistanceKey) && NoDuplicates(selected)
    ensures Ascending(Among(selected, names), DistanceKey) && NoDuplicates(Among(selected, names))
  {
    if selected == [] {
    } else {
      var init, last := selected[..|selected| - 1], selected[|selected| - 1];
      AmongAscends(init, names);
      var before := Among(init, names);
      forall i | 0 <= i < |before| ensures Leq(DistanceKey(before[i]), DistanceKey(last)) && before[i] != last {
        assert before[i] in init;
        var j :| 0 <= j < |init| && init[j] == before[i];
        assert selected[j] == before[i];
      }
    }
  }

  // In the same order, each once.
  lemma ReturnedInOrder(edges: EdgesByDataset, allowed: Keep, seeds: seq<string>, bounds: Bounds,
                        referencedOnly: bool, ordered: seq<(string, nat)>, r: Neighbourhood)
    requires Expands(edges, allowed, seeds, bounds, referencedOnly, ordered, r)
    ensures Ascending(r.datasets, DistanceKey) && NoDuplicates(r.datasets)
  {
    AmongAscends(Selected(ordered, bounds.maxNodes), Referenced(seeds, r.groups));
  }

  // ---------- listed edges adjoin ----------

  lemma Squeezed(a: seq<Key>, b: seq<Key>, c: seq<Key>)
    requires |a| == |b| == |c| == 4 && TupleLeq(a, b) && TupleLeq(b, c) && a[0] == c[0] && a[1] == c[1]
    ensures b[0] == a[0] && b[1] == a[1]
  {
    Total(a[0], b[0]);
    Total(a[1], b[1]);
    assert a[1..][0] == a[1] && b[1..][0] == b[1] && c[1..][0] == c[1];
    assert a[0] == b[0] ==> TupleLeq(a[1..], b[1..]) && TupleLeq(b[1..], c[1..]);
  }

  lemma SameStart(x: DirectedEdge, y: DirectedEdge)
    requires SortKey(x).items[0] == SortKey(y).items[0] && SortKey(x).items[1] == SortKey(y).items[1]
    requires x.source.nodeId == y.source.nodeId
    ensures x.source == y.source
  {
    assert Text(x.source.identityId) == Text(y.source.identityId);
    assert Tuple(Texts(x.source.columns)) == Tuple(Texts(y.source.columns));
    assert EndpointKey(x.source) == EndpointKey(y.source);
    EndpointKeyInjective(x.source, y.source);
  }

  lemma BetweenSame(x: DirectedEdge, y: DirectedEdge, z: DirectedEdge)
    requires Leq(SortKey(x), SortKey(y)) && Leq(SortKey(y), SortKey(z))
    requires x.source == z.source && x.source.nodeId == y.source.nodeId
    ensures y.source == x.source
  {
    var a, b, c := SortKey(x), SortKey(y), SortKey(z);
    assert TupleLeq(a.items, b.items) && TupleLeq(b.items, c.items);
    assert a.items[0] == c.items[0] && a.items[1] == c.items[1];
    Squeezed(a.items, b.items, c.items);
    SameStart(x, y);
  }

  lemma AscendingAdjoins(es: seq<DirectedEdge>, node: string)
    requires Ascending(es, SortKey) && forall e :: e in es ==> e.source.nodeId == node
    ensures Adjoining(es)
  {
    forall i: nat, j: nat, k: nat | i < j < k < |es| && SourceAt(es, i) == SourceAt(es, k)
      ensures SourceAt(es, j) == SourceAt(es, i)
    {
      assert es[i] in es && es[j] in es;
      assert Leq(SortKey(es[i]), SortKey(es[j])) && Leq(SortKey(es[j]), SortKey(es[k]));
      BetweenSame(es[i], es[j], es[k]);
    }
  }

  // Sort-key order keeps the edges of one definition together.
  lemma SortedAdjoins(rs: seq<Relationship>, edges: EdgesByDataset)
    requires forall node {:trigger Leaving(edges, node)} ::
               Leaving(edges, node) == StablySorted(AllOwnEdges(rs, node), SortKey)
    ensures AdjoiningAll(edges)
  {
    forall node {:trigger Leaving(edges, node)} ensures Adjoining(Leaving(edges, node)) {
      var es := Leaving(edges, node);
      forall e | e in es ensures e.source.nodeId == node {
        ListedExactly(rs, edges, node, e);
      }
      AscendingAdjoins(es, node);
    }
  }
}
