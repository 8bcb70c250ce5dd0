// The first search between two datasets with several entities in common: the edge between the
// definitions numbered last is the one it returns.
module TieSearch {
  import opened Order
  import opened Model
  import opened Derivation
  import opened DerivedRelationships
  import opened PathGraphs
  import opened ZeroOneSearch
  import opened DerivedGraph
  import opened FirstPath
  import opened Samples
  import opened SearchTurns

  // ---------- the snapshot ----------

  function Name(i: nat): string { seq(i + 1, _ => 'a') }

  function SharedDefinitions(n: nat): seq<Definition> { seq(n, i requires 0 <= i < n => Def(Name(i), "k", No)) }

  // Two datasets with `n` entities in common.
  function Twins(n: nat): seq<Dataset> {
    [Dataset("s", SharedDefinitions(n)), Dataset("t", SharedDefinitions(n))]
  }

  function TwinKey(n: nat, x: nat): Endpoint {
    if x < n then Endpoint("s", Name(x), ["k"]) else Endpoint("t", Name(x - n), ["k"])
  }

  function TwinKeys(n: nat): seq<Endpoint> { seq(2 * n, x requires 0 <= x < 2 * n => TwinKey(n, x)) }

  lemma {:induction false} NameOrder(i: nat, j: nat)
    requires i < j
    ensures TextLeq(Name(i), Name(j)) && Name(i) != Name(j)
  {
    assert Name(j)[1..] == Name(j - 1);
    if i == 0 {
      assert Name(0)[1..] == [];
    } else {
      assert Name(i)[1..] == Name(i - 1);
      NameOrder(i - 1, j - 1);
    }
    assert |Name(i)| < |Name(j)|;
  }

  lemma TwinEnds(n: nat)
    ensures EndsOf(Twins(n)) == TwinKeys(n)
  {
    var nodes, keys := Twins(n), TwinKeys(n);
    var a, b := nodes[0], nodes[1];
    assert nodes[1..] == [b] && [b][1..] == [];
    assert EndsOn(a) == keys[..n] && EndsOn(b) == keys[n..];
    assert EndsOf([b]) == EndsOn(b) + EndsOf([]);
    assert EndsOf(nodes) == EndsOn(a) + EndsOf([b]);
  }

  function NameSide(node: char, i: nat): string { [node, ':'] + Name(i) + [':', 'k'] }

  lemma TwinSide(n: nat, x: nat)
    ensures Side(TwinKey(n, x)) == if x < n then NameSide('s', x) else NameSide('t', x - n)
  {
    assert JoinedBy(["k"], "+") == "k";
  }

  lemma TwinPlain(n: nat, x: nat)
    ensures Plain(TwinKey(n, x))
  {
    TwinSide(n, x);
    var name := TwinKey(n, x).identityId;
    assert forall c :: c in name ==> c == 'a';
  }

  lemma TwinNext(n: nat, x: nat)
    requires x + 1 < 2 * n
    ensures Leq(EndpointKey(TwinKey(n, x)), EndpointKey(TwinKey(n, x + 1)))
  {
    var a, b := EndpointKey(TwinKey(n, x)).items, EndpointKey(TwinKey(n, x + 1)).items;
    if x + 1 < n {
      NameOrder(x, x + 1);
    } else if x >= n {
      NameOrder(x - n, x + 1 - n);
    }
    TextTotal("s", "s");
    TextTotal("t", "t");
    ThreeLeq(a, b);
  }

  lemma TwinKeysDiffer(n: nat, x: nat, y: nat)
    requires x < y < 2 * n
    ensures TwinKey(n, x) != TwinKey(n, y)
  {
    if y < n { NameOrder(x, y); }
    if n <= x { NameOrder(x - n, y - n); }
  }

  lemma SharedDiffer(n: nat, i: nat, j: nat)
    requires i < j < n
    ensures SharedDefinitions(n)[i].identityId != SharedDefinitions(n)[j].identityId
  {
    NameOrder(i, j);
  }

  lemma TwinsValid(n: nat)
    ensures ValidNodes(Twins(n))
  {
    forall node, i, j | node in Twins(n) && 0 <= i < j < |node.definitions|
      ensures node.definitions[i].identityId != node.definitions[j].identityId
    {
      SharedDiffer(n, i, j);
    }
  }

  lemma TwinsSample(n: nat)
    ensures IsSample(Twins(n), TwinKeys(n))
  {
    var keys := TwinKeys(n);
    TwinsValid(n);
    TwinEnds(n);
    forall e | e in keys ensures Plain(e) {
      var x :| 0 <= x < |keys| && keys[x] == e;
      TwinPlain(n, x);
    }
    forall x | 0 <= x < |keys| - 1 ensures Leq(EndpointKey(keys[x]), EndpointKey(keys[x + 1])) {
      TwinNext(n, x);
    }
    NeighboursAscend(keys, EndpointKey);
    forall x, y | 0 <= x < y < |keys| ensures keys[x] != keys[y] {
      TwinKeysDiffer(n, x, y);
    }
  }

  // From one of them to the other, unfiltered.
  ghost predicate BetweenTwins(q: Query, n: nat) {
    DerivedFrom(q.graph, Twins(n)) && q.allowed.None? && q.source == "s" && q.target == "t"
  }

  function UpTo(n: nat): seq<nat> { seq(n, i => i) }

  ghost predicate LeadsAcross(g: PathGraph, n: nat, i: nat) {
    |g.From(i)| == 1 && g.From(i)[0].target == n + i
  }

  // What the searches see of the graph.
  ghost predicate Twinned(q: Query, n: nat) {
    && q.graph.Valid() && q.allowed.None? && q.source == "s" && q.target == "t" && |q.graph.keys| == 2 * n
    && (forall x: nat :: x < 2 * n ==> q.graph.keys[x].nodeId == if x < n then "s" else "t")
    && q.graph.On("s") == UpTo(n) && forall i: nat :: i < n ==> LeadsAcross(q.graph, n, i)
  }

  lemma TwinKeysAt(g: PathGraph, n: nat)
    requires DerivedFrom(g, Twins(n))
    ensures |g.keys| == 2 * n && forall x: nat :: x < 2 * n ==> g.keys[x] == TwinKey(n, x)
  {
    TwinsSample(n);
    SampleKeys(g, Twins(n), TwinKeys(n));
  }

  lemma TwinsOn(g: PathGraph, n: nat)
    requires DerivedFrom(g, Twins(n)) && |g.keys| == 2 * n
    requires forall x: nat :: x < 2 * n ==> g.keys[x] == TwinKey(n, x)
    ensures g.On("s") == UpTo(n)
  {
    forall d: nat ensures d in UpTo(n) <==> d < |g.keys| && g.keys[d].nodeId == "s" {
      if d < n { assert UpTo(n)[d] == d; }
    }
    SampleOn(g, Twins(n), "s", UpTo(n));
  }

  lemma TwinsAlike(g: PathGraph, n: nat, i: nat, x: nat)
    requires |g.keys| == 2 * n && i < n
    requires forall x: nat :: x < 2 * n ==> g.keys[x] == TwinKey(n, x)
    ensures SameIdentity(g, i, x) <==> x == i || x == n + i
  {
    if x < 2 * n {
      var j: nat := if x < n then x else x - n;
      if i < j { NameOrder(i, j); }
      if j < i { NameOrder(j, i); }
    }
  }

  lemma TwinsFrom(g: PathGraph, n: nat, i: nat)
    requires DerivedFrom(g, Twins(n)) && |g.keys| == 2 * n && i < n
    requires forall x: nat :: x < 2 * n ==> g.keys[x] == TwinKey(n, x)
    ensures LeadsAcross(g, n, i)
  {
    forall x: nat ensures SameIdentity(g, i, x) <==> x == i || x == n + i {
      TwinsAlike(g, n, i, x);
    }
    OneEdge(g, Twins(n), i, n + i);
  }

  lemma TwinsGraph(q: Query, n: nat)
    requires BetweenTwins(q, n)
    ensures Twinned(q, n)
  {
    TwinKeysAt(q.graph, n);
    DerivedJoinsIdentities(q.graph, Twins(n));
    TwinsOn(q.graph, n);
    forall i: nat | i < n ensures LeadsAcross(q.graph, n, i) {
      TwinsFrom(q.graph, n, i);
    }
  }

  // ---------- the first search, turn by turn: what was queued last is taken first ----------

  function FreeSteps(n: nat): seq<(State, nat)> { seq(n, i requires 0 <= i < n => (Ready(i), 0)) }

  lemma {:induction false} ReadyFrom(m: nat, n: nat)
    requires m <= n
    ensures ReadySteps(UpTo(n)[m..], SOURCE, -1, NO_CUTS) == FreeSteps(n)[m..]
    decreases n - m
  {
    if m == n {
    } else {
      ReadyFrom(m + 1, n);
      var rest := UpTo(n)[m..];
      assert rest[0] == m && rest[1..] == UpTo(n)[m + 1..];
      assert FreeSteps(n)[m..] == [(Ready(m), 0)] + FreeSteps(n)[m + 1..];
    }
  }

  lemma StepsOut(q: Query, n: nat)
    requires Twinned(q, n)
    ensures Successors(q, SOURCE, NO_CUTS) == FreeSteps(n)
  {
    ReadyFrom(0, n);
    assert UpTo(n)[0..] == UpTo(n) && FreeSteps(n)[0..] == FreeSteps(n);
  }

  lemma StepAcross(q: Query, n: nat, i: nat)
    requires Twinned(q, n) && i < n
    ensures Successors(q, Ready(i), NO_CUTS) == [(Arrived(n + i), 1)]
  {
    assert LeadsAcross(q.graph, n, i);
    SingleSteps(q, i, n + i, NO_CUTS);
  }

  lemma StepHome(q: Query, n: nat)
    requires Twinned(q, n) && n > 0
    ensures Successors(q, Arrived(2 * n - 1), NO_CUTS) == [(TARGET, 0)]
  {
    StepsFromArrived(q, 2 * n - 1, "t", NO_CUTS);
  }

  ghost predicate FromSource(l: Loop, m: nat) {
    forall i: nat :: i < m ==> Ready(i) in l.distance && l.distance[Ready(i)] == 0
                               && Ready(i) in l.previous && l.previous[Ready(i)] == SOURCE
  }

  // With `m` definitions offered from the source, the last of them in front.
  ghost predicate Offering(l: Loop, m: nat) {
    && l.done == {SOURCE} && FromSource(l, m) && SOURCE in l.distance && l.distance[SOURCE] == 0
    && (forall s :: s in l.distance ==> s == SOURCE || (s % 2 == 0 && 0 <= s < 2 * m))
    && |l.queue| == m && forall i: nat :: i < m ==> l.queue[i] == Ready(m - 1 - i)
  }

  lemma {:induction false} OffersReady(n: nat, m: nat, budget: int)
    requires m <= n && budget >= 0
    ensures Offering(RelaxAll(Taken(Begin(SOURCE)), SOURCE, 0, FreeSteps(n)[..m], budget), m)
  {
    var steps := FreeSteps(n)[..m];
    if m == 0 {
    } else {
      OffersReady(n, m - 1, budget);
      assert steps[..m - 1] == FreeSteps(n)[..m - 1];
      var l := RelaxAll(Taken(Begin(SOURCE)), SOURCE, 0, steps[..m - 1], budget);
      assert steps[m - 1] == (Ready(m - 1), 0) && Ready(m - 1) !in l.distance;
      OffersOne(l, m - 1, budget);
    }
  }

  lemma OffersOne(l: Loop, m: nat, budget: int)
    requires Offering(l, m) && budget >= 0
    ensures Offering(Relax(l, SOURCE, 0, Ready(m), 0, budget), m + 1)
  {
    assert Ready(m) !in l.distance;
  }

  // The last `j` definitions have been taken; the first of them queued its other side first.
  ghost predicate Crossing(l: Loop, n: nat, j: nat) {
    && j <= n && FromSource(l, n) && SOURCE in l.distance && l.distance[SOURCE] == 0
    && (forall s :: s in l.done ==> s == SOURCE || (s % 2 == 0 && s >= Ready(n - j)))
    && (forall s :: s in l.distance ==> s == SOURCE || (0 <= s && (s % 2 == 1 ==> s >= Arrived(2 * n - j))))
    && |l.queue| == n && (forall i: nat :: i < n - j ==> l.queue[i] == Ready(n - j - 1 - i))
    && (j > 0 ==> && l.queue[n - j] == Arrived(2 * n - 1) && Arrived(2 * n - 1) in l.distance
                  && l.distance[Arrived(2 * n - 1)] == 1
                  && Arrived(2 * n - 1) in l.previous && l.previous[Arrived(2 * n - 1)] == Ready(n - 1))
  }

  lemma CrossesOne(l: Loop, n: nat, j: nat, budget: int)
    requires Crossing(l, n, j) && j < n && budget >= 1
    ensures Crossing(Relax(Taken(l), Ready(n - j - 1), 1, Arrived(2 * n - j - 1), 1, budget), n, j + 1)
  {
    assert l.queue[0] == Ready(n - j - 1);
    assert Arrived(2 * n - j - 1) !in l.distance;
    var l' := Relax(Taken(l), Ready(n - j - 1), 1, Arrived(2 * n - j - 1), 1, budget);
    assert l'.queue == l.queue[1..] + [Arrived(2 * n - j - 1)];
  }

  lemma Departs(q: Query, n: nat, budget: int) returns (l: Loop)
    requires Twinned(q, n) && n > 0 && budget >= 1
    ensures ComesTo(q, SOURCE, NO_CUTS, budget, l) && Crossing(l, n, 0)
  {
    ComesToBegin(q, SOURCE, NO_CUTS, budget);
    StepsOut(q, n);
    OffersReady(n, n, budget);
    assert FreeSteps(n)[..n] == FreeSteps(n);
    l := RelaxAll(Taken(Begin(SOURCE)), SOURCE, 0, FreeSteps(n), budget);
    NextTurn(q, SOURCE, NO_CUTS, budget, Begin(SOURCE), FreeSteps(n), l);
  }

  lemma {:induction false} Crosses(q: Query, n: nat, budget: int, j: nat) returns (l: Loop)
    requires Twinned(q, n) && n > 0 && budget >= 1 && j <= n
    ensures ComesTo(q, SOURCE, NO_CUTS, budget, l) && Crossing(l, n, j)
  {
    if j == 0 {
      l := Departs(q, n, budget);
    } else {
      var k := Crosses(q, n, budget, j - 1);
      l := CrossesNext(q, n, budget, j - 1, k);
    }
  }

  lemma CrossesFrom(k: Loop, n: nat, j: nat, i: nat, budget: int)
    requires Crossing(k, n, j) && j < n && i == n - j - 1 && budget >= 1
    ensures Crossing(RelaxAll(Taken(k), Ready(i), 0, [(Arrived(n + i), 1)], budget), n, j + 1)
  {
    RelaxOne(Taken(k), Ready(i), 0, (Arrived(n + i), 1), budget);
    CrossesOne(k, n, j, budget);
  }

  lemma FrontFree(k: Loop, n: nat, j: nat, i: nat)
    requires Crossing(k, n, j) && j < n && i == n - j - 1
    ensures k.queue != [] && k.queue[0] == Ready(i) && Ready(i) !in k.done
    ensures Ready(i) in k.distance && k.distance[Ready(i)] == 0
  {}

  lemma CrossTurn(q: Query, n: nat, budget: int, i: nat, k: Loop, l: Loop)
    requires Twinned(q, n) && i < n && ComesTo(q, SOURCE, NO_CUTS, budget, k)
    requires k.queue != [] && k.queue[0] == Ready(i) && Ready(i) !in k.done
    requires Ready(i) in k.distance && k.distance[Ready(i)] == 0
    requires l == RelaxAll(Taken(k), Ready(i), 0, [(Arrived(n + i), 1)], budget)
    ensures ComesTo(q, SOURCE, NO_CUTS, budget, l)
  {
    StepAcross(q, n, i);
    NextTurn(q, SOURCE, NO_CUTS, budget, k, [(Arrived(n + i), 1)], l);
  }

  lemma CrossesNext(q: Query, n: nat, budget: int, j: nat, k: Loop) returns (l: Loop)
    requires Twinned(q, n) && budget >= 1 && j < n
    requires ComesTo(q, SOURCE, NO_CUTS, budget, k) && Crossing(k, n, j)
    ensures ComesTo(q, SOURCE, NO_CUTS, budget, l) && Crossing(l, n, j + 1)
  {
    var i := n - j - 1;
    l := RelaxAll(Taken(k), Ready(i), 0, [(Arrived(n + i), 1)], budget);
    FrontFree(k, n, j, i);
    CrossTurn(q, n, budget, i, k, l);
    CrossesFrom(k, n, j, i, budget);
  }

  // The states of the edge between the `i`-th definitions.
  function Across(n: nat, i: nat): Path { [SOURCE, Ready(i), Arrived(n + i), TARGET] }

  ghost predicate AtTarget(l: Loop, n: nat) {
    && n > 0 && l.queue != [] && l.queue[0] == TARGET && TARGET !in l.done
    && TARGET in l.distance && l.distance[TARGET] == 1
    && TARGET in l.previous && l.previous[TARGET] == Arrived(2 * n - 1)
    && Arrived(2 * n - 1) in l.distance && l.distance[Arrived(2 * n - 1)] == 1
    && Arrived(2 * n - 1) in l.previous && l.previous[Arrived(2 * n - 1)] == Ready(n - 1)
    && Ready(n - 1) in l.distance && l.distance[Ready(n - 1)] == 0
    && Ready(n - 1) in l.previous && l.previous[Ready(n - 1)] == SOURCE
    && SOURCE in l.distance && l.distance[SOURCE] == 0
  }

  lemma ArrivesOne(l: Loop, n: nat, budget: int)
    requires Crossing(l, n, n) && n > 0 && budget >= 1
    ensures AtTarget(Relax(Taken(l), Arrived(2 * n - 1), 1, TARGET, 0, budget), n)
  {
    assert l.queue[0] == Arrived(2 * n - 1) && TARGET !in l.distance;
    assert Ready(n - 1) in l.distance;
  }

  lemma Arrives(q: Query, n: nat, budget: int) returns (l: Loop)
    requires Twinned(q, n) && n > 0 && budget >= 1
    ensures ComesTo(q, SOURCE, NO_CUTS, budget, l) && AtTarget(l, n)
  {
    var k := Crosses(q, n, budget, n);
    assert k.queue[0] == Arrived(2 * n - 1);
    StepHome(q, n);
    RelaxOne(Taken(k), Arrived(2 * n - 1), 1, (TARGET, 0), budget);
    ArrivesOne(k, n, budget);
    l := RelaxAll(Taken(k), Arrived(2 * n - 1), 1, [(TARGET, 0)], budget);
    NextTurn(q, SOURCE, NO_CUTS, budget, k, [(TARGET, 0)], l);
  }

  lemma TracedBack(l: Loop, n: nat)
    requires AtTarget(l, n)
    ensures Trace(l, TARGET, SOURCE) == Across(n, n - 1)
  {
    assert Trace(l, SOURCE, SOURCE) == [SOURCE];
    assert Trace(l, Ready(n - 1), SOURCE) == [SOURCE, Ready(n - 1)];
    assert Trace(l, Arrived(2 * n - 1), SOURCE) == [SOURCE, Ready(n - 1), Arrived(2 * n - 1)];
  }

  lemma LastTwinFirst(q: Query, n: nat, budget: int)
    requires Twinned(q, n) && n > 0 && budget >= 1
    ensures Shortest(q, SOURCE, NO_CUTS, budget) == Some(Across(n, n - 1))
  {
    var l := Arrives(q, n, budget);
    TracedBack(l, n);
    LastTurn(q, SOURCE, NO_CUTS, budget, l);
  }
}
