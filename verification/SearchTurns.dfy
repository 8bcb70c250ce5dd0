// Following a single search turn by turn, on graphs small enough to do so.
module SearchTurns {
  import opened Model
  import opened PathGraphs
  import opened ZeroOneSearch

  // The search comes by the loop state `l`.
  ghost predicate ComesTo(q: Query, start: State, cuts: Cuts, budget: int, l: Loop)
    requires q.graph.Valid() && IsState(q, start)
  {
    Inside(q, l) && Shortest(q, start, cuts, budget) == Run(q, start, cuts, budget, l)
  }

  lemma ComesToBegin(q: Query, start: State, cuts: Cuts, budget: int)
    requires q.graph.Valid() && IsState(q, start) && budget >= 0
    ensures ComesTo(q, start, cuts, budget, Begin(start))
  {}

  // Taking a state from the queue that is neither done nor the target.
  lemma NextTurn(q: Query, start: State, cuts: Cuts, budget: int, l: Loop, steps: seq<(State, nat)>, l': Loop)
    requires q.graph.Valid() && IsState(q, start) && ComesTo(q, start, cuts, budget, l)
    requires l.queue != [] && l.queue[0] !in l.done && l.queue[0] in l.distance && l.queue[0] != TARGET
    requires Successors(q, l.queue[0], cuts) == steps
    requires l' == RelaxAll(Taken(l), l.queue[0], l.distance[l.queue[0]], steps, budget)
    ensures ComesTo(q, start, cuts, budget, l')
  {
    TurnInside(q, cuts, budget, l);
  }

  lemma LastTurn(q: Query, start: State, cuts: Cuts, budget: int, l: Loop)
    requires q.graph.Valid() && IsState(q, start) && ComesTo(q, start, cuts, budget, l)
    requires l.queue != [] && l.queue[0] == TARGET && TARGET !in l.done && TARGET in l.distance
    ensures Shortest(q, start, cuts, budget) == Some(Trace(l, TARGET, start))
  {}

  lemma RelaxNone(l: Loop, state: State, here: nat, budget: int)
    ensures RelaxAll(l, state, here, [], budget) == l
  {}

  lemma RelaxOne(l: Loop, state: State, here: nat, a: (State, nat), budget: int)
    ensures RelaxAll(l, state, here, [a], budget) == Relax(l, state, here + a.1, a.0, a.1, budget)
  {
    assert [a][..0] == [];
  }

  lemma RelaxTwo(l: Loop, state: State, here: nat, a: (State, nat), b: (State, nat), budget: int)
    ensures RelaxAll(l, state, here, [a, b], budget)
         == Relax(RelaxAll(l, state, here, [a], budget), state, here + b.1, b.0, b.1, budget)
  {
    assert [a, b][..1] == [a];
  }

  lemma RelaxThree(l: Loop, state: State, here: nat, a: (State, nat), b: (State, nat), c: (State, nat), budget: int)
    ensures RelaxAll(l, state, here, [a, b, c], budget)
         == Relax(RelaxAll(l, state, here, [a, b], budget), state, here + c.1, c.0, c.1, budget)
  {
    assert [a, b, c][..2] == [a, b];
  }

  // The step to one definition on the dataset, if it is taken.
  function ReadyStep(d: nat, state: State, self: int, cuts: Cuts): seq<(State, nat)> {
    if d != self && d !in cuts.blocked && (state, Ready(d)) !in cuts.removed then [(Ready(d), 0)] else []
  }

  lemma OneReady(a: nat, state: State, self: int, cuts: Cuts)
    ensures ReadySteps([a], state, self, cuts) == ReadyStep(a, state, self, cuts)
  {
    assert [a][1..] == [];
  }

  lemma TwoReady(a: nat, b: nat, state: State, self: int, cuts: Cuts)
    ensures ReadySteps([a, b], state, self, cuts) == ReadyStep(a, state, self, cuts) + ReadyStep(b, state, self, cuts)
  {
    assert [a, b][1..] == [b];
    OneReady(b, state, self, cuts);
  }

  lemma FourReady(a: nat, b: nat, c: nat, d: nat, state: State, self: int, cuts: Cuts)
    ensures ReadySteps([a, b, c, d], state, self, cuts)
         == ReadyStep(a, state, self, cuts) + ReadyStep(b, state, self, cuts)
            + ReadyStep(c, state, self, cuts) + ReadyStep(d, state, self, cuts)
  {
    assert [a, b, c, d][1..] == [b, c, d] && [b, c, d][1..] == [c, d];
    TwoReady(c, d, state, self, cuts);
    var x, y := ReadyStep(a, state, self, cuts), ReadyStep(b, state, self, cuts);
    var z := ReadySteps([c, d], state, self, cuts);
    assert x + (y + z) == x + y + z;
  }

  // The step across one directed edge, if it is taken.
  function EdgeStep(q: Query, e: OutEdge, state: State, cuts: Cuts): seq<(State, nat)> {
    if e.target !in cuts.blocked && (state, Arrived(e.target)) !in cuts.removed && Permits(q, e.multiplicity)
    then [(Arrived(e.target), 1)] else []
  }

  lemma TwoEdgeSteps(q: Query, edges: seq<OutEdge>, state: State, cuts: Cuts)
    requires |edges| == 2
    ensures EdgeSteps(q, edges, state, cuts) == EdgeStep(q, edges[0], state, cuts) + EdgeStep(q, edges[1], state, cuts)
  {
    assert EdgeSteps(q, [], state, cuts) == [];
    assert edges[1..] == [edges[1]] && [edges[1]][1..] == [];
    assert EdgeSteps(q, [edges[1]], state, cuts) == EdgeStep(q, edges[1], state, cuts);
  }

  lemma OneEdgeStep(q: Query, edges: seq<OutEdge>, state: State, cuts: Cuts)
    requires |edges| == 1 && q.allowed.None? && edges[0].target !in cuts.blocked
    requires (state, Arrived(edges[0].target)) !in cuts.removed
    ensures EdgeSteps(q, edges, state, cuts) == [(Arrived(edges[0].target), 1)]
  {
    assert EdgeSteps(q, edges[1..], state, cuts) == [];
  }

  // Out of a state of the definition `d`.
  lemma StepsFromReady(q: Query, d: nat, cuts: Cuts)
    requires d < |q.graph.keys|
    ensures Successors(q, Ready(d), cuts) == EdgeSteps(q, q.graph.From(d), Ready(d), cuts)
  {}

  lemma StepsFromArrived(q: Query, d: nat, node: string, cuts: Cuts)
    requires d < |q.graph.keys| && q.graph.keys[d].nodeId == node
    ensures Successors(q, Arrived(d), cuts) ==
              if node != q.target then ReadySteps(q.graph.On(node), Arrived(d), d, cuts)
              else if (Arrived(d), TARGET) !in cuts.removed then [(TARGET, 0)] else []
  {}

  // Out of a definition that is ready and has one directed edge, or two.
  lemma SingleSteps(q: Query, d: nat, t: nat, cuts: Cuts)
    requires d < |q.graph.keys| && q.allowed.None? && |q.graph.From(d)| == 1 && q.graph.From(d)[0].target == t
    requires t !in cuts.blocked && (Ready(d), Arrived(t)) !in cuts.removed
    ensures Successors(q, Ready(d), cuts) == [(Arrived(t), 1)]
  {
    StepsFromReady(q, d, cuts);
    OneEdgeStep(q, q.graph.From(d), Ready(d), cuts);
  }

  function ArrivedStep(t: nat, state: State, cuts: Cuts): seq<(State, nat)> {
    if t !in cuts.blocked && (state, Arrived(t)) !in cuts.removed then [(Arrived(t), 1)] else []
  }

  lemma DoubleSteps(q: Query, d: nat, t: nat, u: nat, cuts: Cuts)
    requires d < |q.graph.keys| && q.allowed.None? && |q.graph.From(d)| == 2
    requires q.graph.From(d)[0].target == t && q.graph.From(d)[1].target == u
    ensures Successors(q, Ready(d), cuts) == ArrivedStep(t, Ready(d), cuts) + ArrivedStep(u, Ready(d), cuts)
  {
    StepsFromReady(q, d, cuts);
    TwoEdgeSteps(q, q.graph.From(d), Ready(d), cuts);
  }
}
