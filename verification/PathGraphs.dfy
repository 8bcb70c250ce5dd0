// The graph ranked paths are searched in: every entity definition twice, as ready to leave and as
// arrived, between a source and a target state.
module PathGraphs {
  import opened Order
  import opened Model

  type State = int

  const SOURCE: State := -1
  const TARGET: State := -2

  function Ready(definition: nat): State { 2 * definition }

  function Arrived(definition: nat): State { 2 * definition + 1 }

  datatype OutEdge = OutEdge(target: nat, multiplicity: Multiplicity, edgeId: string)

  // A dictionary of lists with an empty one for every other key (`defaultdict(list)`).
  function ListAt<K(==), V>(lists: map<K, seq<V>>, key: K): seq<V> {
    if key in lists then lists[key] else []
  }

  datatype PathGraph = PathGraph(
    keys: seq<Endpoint>,
    onDataset: map<string, seq<nat>>,
    edges: map<nat, seq<OutEdge>>,
    edgeByPair: map<(nat, nat), string>)
  {
    function On(node: string): seq<nat> { ListAt(onDataset, node) }

    function From(definition: nat): seq<OutEdge> { ListAt(edges, definition) }

    // What the constructor builds from a valid snapshot.
    ghost predicate Valid() {
      && NoDuplicates(keys)
      && (forall node, d: nat {:trigger d in On(node)} :: d in On(node) ==> d < |keys| && keys[d].nodeId == node)
      && (forall d: nat :: d < |keys| ==> d in On(keys[d].nodeId))
      && (forall d: nat, e :: e in From(d) ==> d < |keys| && e.target < |keys|)
      && (forall d: nat, e :: e in From(d) ==> (d, e.target) in edgeByPair && edgeByPair[(d, e.target)] == e.edgeId)
      && (forall d, x, y :: (d, x) in edgeByPair && (d, y) in edgeByPair && edgeByPair[(d, x)] == edgeByPair[(d, y)] ==>
            x == y)
    }
  }

  // One request: the graph, its two datasets and the multiplicities allowed, None for all.
  datatype Query = Query(graph: PathGraph, source: string, target: string, allowed: Option<set<Multiplicity>>)

  // What a single search leaves out.
  datatype Cuts = Cuts(blocked: set<int>, removed: set<(State, State)>)

  const NO_CUTS := Cuts({}, {})

  predicate Permits(q: Query, m: Multiplicity) {
    q.allowed.Some? ==> m in q.allowed.value
  }

  // ---------- successors, in the order they are tried ----------

  function ReadySteps(definitions: seq<nat>, state: State, self: int, cuts: Cuts): seq<(State, nat)> {
    if definitions == [] then []
    else
      var d := definitions[0];
      (if d != self && d !in cuts.blocked && (state, Ready(d)) !in cuts.removed then [(Ready(d), 0)] else [])
      + ReadySteps(definitions[1..], state, self, cuts)
  }

  function EdgeSteps(q: Query, edges: seq<OutEdge>, state: State, cuts: Cuts): seq<(State, nat)> {
    if edges == [] then []
    else
      var e := edges[0];
      (if e.target !in cuts.blocked && (state, Arrived(e.target)) !in cuts.removed && Permits(q, e.multiplicity)
       then [(Arrived(e.target), 1)] else [])
      + EdgeSteps(q, edges[1..], state, cuts)
  }

  function Successors(q: Query, state: State, cuts: Cuts): seq<(State, nat)> {
    if state == SOURCE then ReadySteps(q.graph.On(q.source), state, -1, cuts)
    else if state < 0 || state / 2 >= |q.graph.keys| then []
    else
      var d, node := state / 2, q.graph.keys[state / 2].nodeId;
      if state % 2 == 1 then
        if node == q.target then
          if (state, TARGET) !in cuts.removed then [(TARGET, 0)] else []
        else ReadySteps(q.graph.On(node), state, d, cuts)
      else EdgeSteps(q, q.graph.From(d), state, cuts)
  }

  // ---------- the same as a relation ----------

  predicate Linked(q: Query, d: nat, t: nat) {
    exists e :: e in q.graph.From(d) && e.target == t && Permits(q, e.multiplicity)
  }

  // A move of the uncut graph.
  predicate Move(q: Query, a: State, b: State) {
    if a == SOURCE then b >= 0 && b % 2 == 0 && b / 2 in q.graph.On(q.source)
    else
      && 0 <= a < 2 * |q.graph.keys|
      && if a % 2 == 0 then b >= 0 && b % 2 == 1 && Linked(q, a / 2, b / 2)
         else if q.graph.keys[a / 2].nodeId == q.target then b == TARGET
         else b >= 0 && b % 2 == 0 && b / 2 != a / 2 && b / 2 in q.graph.On(q.graph.keys[a / 2].nodeId)
  }

  predicate Uncut(cuts: Cuts, a: State, b: State) {
    (b >= 0 ==> b / 2 !in cuts.blocked) && (a, b) !in cuts.removed
  }

  function MoveCost(b: State): nat { if b >= 0 && b % 2 == 1 then 1 else 0 }

  lemma {:induction false} ReadyStepsMembers(definitions: seq<nat>, state: State, self: int, cuts: Cuts, b: State,
                                             c: nat)
    ensures (b, c) in ReadySteps(definitions, state, self, cuts) <==>
            c == 0 && b >= 0 && b % 2 == 0 && b / 2 in definitions && b / 2 != self && Uncut(cuts, state, b)
  {
    if definitions == [] {
    } else {
      ReadyStepsMembers(definitions[1..], state, self, cuts, b, c);
      assert definitions == [definitions[0]] + definitions[1..];
      assert b >= 0 && b % 2 == 0 ==> Ready(b / 2) == b;
    }
  }

  lemma {:induction false} EdgeStepsMembers(q: Query, edges: seq<OutEdge>, state: State, cuts: Cuts, b: State, c: nat)
    ensures (b, c) in EdgeSteps(q, edges, state, cuts) <==>
            c == 1 && b >= 0 && b % 2 == 1 && Uncut(cuts, state, b)
            && exists e :: e in edges && e.target == b / 2 && Permits(q, e.multiplicity)
  {
    if edges == [] {
    } else {
      EdgeStepsMembers(q, edges[1..], state, cuts, b, c);
      assert edges == [edges[0]] + edges[1..];
      assert b >= 0 && b % 2 == 1 ==> Arrived(b / 2) == b;
    }
  }

  // The generator yields exactly the uncut moves, each at its cost.
  lemma SuccessorsAreMoves(q: Query, a: State, cuts: Cuts, b: State, c: nat)
    ensures (b, c) in Successors(q, a, cuts) <==> Move(q, a, b) && Uncut(cuts, a, b) && c == MoveCost(b)
  {
    if a == SOURCE {
      ReadyStepsMembers(q.graph.On(q.source), a, -1, cuts, b, c);
    } else if 0 <= a < 2 * |q.graph.keys| {
      var d, node := a / 2, q.graph.keys[a / 2].nodeId;
      if a % 2 == 0 {
        EdgeStepsMembers(q, q.graph.From(d), a, cuts, b, c);
      } else if node != q.target {
        ReadyStepsMembers(q.graph.On(node), a, d, cuts, b, c);
      }
    }
  }

  // ---------- routes ----------

  type Path = seq<State>

  ghost predicate WalkAt(q: Query, cuts: Cuts, p: Path, i: nat)
    requires i < |p| - 1
  {
    Move(q, p[i], p[i + 1]) && Uncut(cuts, p[i], p[i + 1])
  }

  // Moves from the first state, uncut.
  ghost predicate Walk(q: Query, cuts: Cuts, p: Path) {
    p != [] && forall i {:trigger WalkAt(q, cuts, p, i)} :: 0 <= i < |p| - 1 ==> WalkAt(q, cuts, p, i)
  }

  ghost predicate WalkToTarget(q: Query, cuts: Cuts, start: State, p: Path) {
    Walk(q, cuts, p) && p[0] == start && p[|p| - 1] == TARGET
  }

  // `_edge_count`
  function EdgeCount(p: Path): nat {
    if p == [] then 0 else EdgeCount(p[..|p| - 1]) + MoveCost(p[|p| - 1])
  }

  lemma {:induction false} EdgeCountConcat(p: Path, r: Path)
    ensures EdgeCount(p + r) == EdgeCount(p) + EdgeCount(r)
  {
    if r == [] {
      assert p + r == p;
    } else {
      assert (p + r)[..|p + r| - 1] == p + r[..|r| - 1];
      EdgeCountConcat(p, r[..|r| - 1]);
    }
  }
}
