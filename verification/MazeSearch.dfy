// A search on a small snapshot that comes back with a reused definition although a legal path of
// the same length exists.
module MazeSearch {
  import opened Order
  import opened Model
  import opened Derivation
  import opened PathGraphs
  import opened ZeroOneSearch
  import opened DerivedGraph
  import opened FirstPath
  import opened Samples
  import opened SearchTurns
  import opened Routes

  // `z` joins s, m and t; `j` is twice on m; another way leads from m by `a` to n and by `y` to t.
  const MAZE := [
    Dataset("m", [Def("a", "k", No), Def("j", "a", No), Def("j", "b", No), Def("z", "k", No)]),
    Dataset("n", [Def("a", "k", No), Def("y", "k", No)]),
    Dataset("s", [Def("z", "k", No)]),
    Dataset("t", [Def("y", "k", No), Def("z", "k", No)])]

  const MAZE_KEYS := [
    Endpoint("m", "a", ["k"]), Endpoint("m", "j", ["a"]), Endpoint("m", "j", ["b"]), Endpoint("m", "z", ["k"]),
    Endpoint("n", "a", ["k"]), Endpoint("n", "y", ["k"]), Endpoint("s", "z", ["k"]),
    Endpoint("t", "y", ["k"]), Endpoint("t", "z", ["k"])]

  lemma MazeEnds(nodes: seq<Dataset>, keys: seq<Endpoint>)
    requires nodes == MAZE && keys == MAZE_KEYS
    ensures EndsOf(nodes) == keys
  {
    assert EndsOn(nodes[0]) == keys[..4] && EndsOn(nodes[1]) == keys[4..6];
    assert EndsOn(nodes[2]) == keys[6..7] && EndsOn(nodes[3]) == keys[7..];
    assert nodes[1..][0] == nodes[1] && nodes[1..][1..] == nodes[2..];
    assert nodes[2..][0] == nodes[2] && nodes[2..][1..] == nodes[3..];
    assert nodes[3..][0] == nodes[3] && nodes[3..][1..] == [];
    assert EndsOf(nodes[3..]) == keys[7..];
    assert EndsOf(nodes[2..]) == keys[6..];
    assert EndsOf(nodes[1..]) == keys[4..];
  }

  lemma MazeShort(keys: seq<Endpoint>)
    requires keys == MAZE_KEYS
    ensures forall e :: e in keys ==> Short(e)
  {}

  lemma MazeOrder(keys: seq<Endpoint>)
    requires keys == MAZE_KEYS && forall e :: e in keys ==> Short(e)
    ensures forall i {:trigger keys[i]} :: 0 <= i < |keys| - 1 ==> Precedes(keys[i], keys[i + 1])
  {}

  lemma MazeDefinitions(nodes: seq<Dataset>, n: Dataset)
    requires nodes == MAZE && n in nodes
    ensures forall i, j :: 0 <= i < j < |n.definitions| ==>
              n.definitions[i].identityId != n.definitions[j].identityId
              || n.definitions[i].columns != n.definitions[j].columns
  {}

  lemma MazeValid(nodes: seq<Dataset>)
    requires nodes == MAZE
    ensures ValidNodes(nodes)
  {
    forall n | n in nodes {
      MazeDefinitions(nodes, n);
    }
    assert forall i, j :: 0 <= i < j < |nodes| ==> nodes[i].nodeId != nodes[j].nodeId;
  }

  lemma MazeSample(nodes: seq<Dataset>, keys: seq<Endpoint>)
    requires nodes == MAZE && keys == MAZE_KEYS
    ensures IsSample(nodes, keys)
  {
    MazeEnds(nodes, keys);
    MazeShort(keys);
    MazeOrder(keys);
    MazeValid(nodes);
    ShortSample(nodes, keys);
  }

  // From s to t, unfiltered.
  ghost predicate InMaze(q: Query) {
    DerivedFrom(q.graph, MAZE) && q.allowed.None? && q.source == "s" && q.target == "t"
  }

  predicate KeyFits(e: Endpoint, x: nat) {
    && e.nodeId == (if x < 4 then "m" else if x < 6 then "n" else if x < 7 then "s" else "t")
    && e.identityId == (if x == 0 || x == 4 then "a" else if x < 3 then "j" else if x == 5 || x == 7 then "y" else "z")
  }

  ghost predicate LeadsTo(g: PathGraph, d: nat, t: nat) {
    |g.From(d)| == 1 && g.From(d)[0].target == t
  }

  ghost predicate LeadsToBoth(g: PathGraph, d: nat, t: nat, u: nat) {
    |g.From(d)| == 2 && g.From(d)[0].target == t && g.From(d)[1].target == u
  }

  // What the search sees of the graph.
  ghost predicate Laid(q: Query) {
    && q.allowed.None? && q.source == "s" && q.target == "t"
    && |q.graph.keys| == 9 && (forall x: nat :: x < 9 ==> KeyFits(q.graph.keys[x], x))
    && q.graph.On("m") == [0, 1, 2, 3] && q.graph.On("n") == [4, 5] && q.graph.On("s") == [6]
    && LeadsTo(q.graph, 0, 4) && LeadsTo(q.graph, 1, 2) && LeadsTo(q.graph, 2, 1) && LeadsTo(q.graph, 5, 7)
    && LeadsToBoth(q.graph, 3, 6, 8) && LeadsToBoth(q.graph, 6, 3, 8)
  }

  ghost predicate Mazed(q: Query) {
    q.graph.Valid() && JoinsIdentities(q.graph) && Laid(q)
  }

  lemma MazeKeys(keys: seq<Endpoint>)
    requires keys == MAZE_KEYS
    ensures |keys| == 9 && forall x: nat :: x < 9 ==> KeyFits(keys[x], x) && Short(keys[x])
  {}

  ghost predicate MazeGraph(g: PathGraph) {
    DerivedFrom(g, MAZE) && |g.keys| == 9 && forall x: nat :: x < 9 ==> KeyFits(g.keys[x], x)
  }

  lemma MazeOn(g: PathGraph)
    requires MazeGraph(g)
    ensures g.On("m") == [0, 1, 2, 3] && g.On("n") == [4, 5] && g.On("s") == [6]
  {
    SampleOn(g, MAZE, "m", [0, 1, 2, 3]);
    SampleOn(g, MAZE, "n", [4, 5]);
    SampleOn(g, MAZE, "s", [6]);
  }

  lemma MazeSingles(g: PathGraph)
    requires MazeGraph(g)
    ensures LeadsTo(g, 0, 4) && LeadsTo(g, 1, 2) && LeadsTo(g, 2, 1) && LeadsTo(g, 5, 7)
  {
    OneEdge(g, MAZE, 0, 4);
    OneEdge(g, MAZE, 1, 2);
    OneEdge(g, MAZE, 2, 1);
    OneEdge(g, MAZE, 5, 7);
  }

  lemma MazeShortIds(g: PathGraph, m: Endpoint, s: Endpoint, t: Endpoint)
    requires DerivedFrom(g, MAZE) && |g.keys| == 9 && g.keys[3] == m && g.keys[6] == s && g.keys[8] == t
    requires Short(m) && Short(s) && Short(t) && m.nodeId == "m" && s.nodeId == "s" && t.nodeId == "t"
    requires m.identityId == s.identityId == t.identityId
    ensures EdgeIdOf(g, (3, 6)) == EdgeIdOf(g, (6, 3)) == ShortId(m, s)
    ensures EdgeIdOf(g, (3, 8)) == ShortId(m, t) && EdgeIdOf(g, (6, 8)) == ShortId(s, t)
  {
    SampleEdgeId(g, MAZE, 3, 6);
    SampleEdgeIdBack(g, MAZE, 3, 6);
    SampleEdgeId(g, MAZE, 3, 8);
    SampleEdgeId(g, MAZE, 6, 8);
  }

  lemma MazeIds(g: PathGraph)
    requires MazeGraph(g) && g.keys == MAZE_KEYS
    ensures TextLeq(EdgeIdOf(g, (3, 6)), EdgeIdOf(g, (3, 8))) && EdgeIdOf(g, (3, 6)) != EdgeIdOf(g, (3, 8))
    ensures TextLeq(EdgeIdOf(g, (6, 3)), EdgeIdOf(g, (6, 8))) && EdgeIdOf(g, (6, 3)) != EdgeIdOf(g, (6, 8))
  {
    var m, s, t := g.keys[3], g.keys[6], g.keys[8];
    MazeKeys(g.keys);
    MazeShortIds(g, m, s, t);
    MazeIdOrder(m, s, t);
  }

  lemma MazeIdOrder(m: Endpoint, s: Endpoint, t: Endpoint)
    requires Short(m) && Short(s) && Short(t) && m.nodeId == "m" && s.nodeId == "s" && t.nodeId == "t"
    ensures TextLeq(ShortId(m, s), ShortId(m, t)) && ShortId(m, s) != ShortId(m, t)
    ensures TextLeq(ShortId(m, s), ShortId(s, t)) && ShortId(m, s) != ShortId(s, t)
  {
    var a, b, c := ShortId(m, s), ShortId(m, t), ShortId(s, t);
    assert a[..7] == b[..7] && a[7] == 's' && b[7] == 't';
    FirstDifference(a, b, 7);
    assert a[0] == 'm' && c[0] == 's';
    FirstDifference(a, c, 0);
  }

  ghost predicate AlikeWith(g: PathGraph, d: nat, t: nat, u: nat) {
    forall x: nat :: SameIdentity(g, d, x) <==> x == d || x == t || x == u
  }

  lemma MazeAlike(g: PathGraph)
    requires MazeGraph(g)
    ensures AlikeWith(g, 3, 6, 8) && AlikeWith(g, 6, 3, 8)
  {}

  lemma MazeFrom(g: PathGraph, d: nat, t: nat, u: nat)
    requires DerivedFrom(g, MAZE) && AlikeWith(g, d, t, u) && d != t && d != u && t != u
    requires TextLeq(EdgeIdOf(g, (d, t)), EdgeIdOf(g, (d, u))) && EdgeIdOf(g, (d, t)) != EdgeIdOf(g, (d, u))
    ensures LeadsToBoth(g, d, t, u)
  {
    TwoEdges(g, MAZE, d, t, u);
  }

  lemma MazeIsMazed(q: Query)
    requires InMaze(q)
    ensures Mazed(q)
  {
    MazeSample(MAZE, MAZE_KEYS);
    SampleKeys(q.graph, MAZE, MAZE_KEYS);
    MazeKeys(q.graph.keys);
    MazeOn(q.graph);
    MazeSingles(q.graph);
    MazeIds(q.graph);
    MazeAlike(q.graph);
    MazeFrom(q.graph, 3, 6, 8);
    MazeFrom(q.graph, 6, 3, 8);
    DerivedJoinsIdentities(q.graph, MAZE);
  }

  // ---------- the search from s once the direct edge has been found ----------

  ghost predicate AfterDirect(cuts: Cuts) { cuts.blocked == {} && cuts.removed == {(12, 17)} }

  lemma StepsReady(q: Query, cuts: Cuts)
    requires Laid(q) && AfterDirect(cuts)
    ensures Successors(q, 4, cuts) == [(3, 1)] && Successors(q, 2, cuts) == [(5, 1)]
    ensures Successors(q, 0, cuts) == [(9, 1)] && Successors(q, 10, cuts) == [(15, 1)]
  {
    SingleSteps(q, 2, 1, cuts);
    SingleSteps(q, 1, 2, cuts);
    SingleSteps(q, 0, 4, cuts);
    SingleSteps(q, 5, 7, cuts);
  }

  lemma StepsDouble(q: Query, cuts: Cuts)
    requires Laid(q) && AfterDirect(cuts)
    ensures Successors(q, 12, cuts) == [(7, 1)] && Successors(q, 6, cuts) == [(13, 1), (17, 1)]
  {
    DoubleSteps(q, 6, 3, 8, cuts);
    DoubleSteps(q, 3, 6, 8, cuts);
  }

  // Pivoting on m from the definition arrived at.
  lemma PivotsOnM(cuts: Cuts)
    requires AfterDirect(cuts)
    ensures ReadySteps([0, 1, 2, 3], 7, 3, cuts) == [(0, 0), (2, 0), (4, 0)]
    ensures ReadySteps([0, 1, 2, 3], 3, 1, cuts) == [(0, 0), (4, 0), (6, 0)]
    ensures ReadySteps([0, 1, 2, 3], 5, 2, cuts) == [(0, 0), (2, 0), (6, 0)]
  {
    FourReady(0, 1, 2, 3, 7, 3, cuts);
    FourReady(0, 1, 2, 3, 3, 1, cuts);
    FourReady(0, 1, 2, 3, 5, 2, cuts);
  }

  lemma StepsOnM(q: Query, cuts: Cuts)
    requires Laid(q) && AfterDirect(cuts)
    ensures Successors(q, 7, cuts) == [(0, 0), (2, 0), (4, 0)]
    ensures Successors(q, 3, cuts) == [(0, 0), (4, 0), (6, 0)]
    ensures Successors(q, 5, cuts) == [(0, 0), (2, 0), (6, 0)]
  {
    PivotsOnM(cuts);
    StepsFromArrived(q, 3, "m", cuts);
    StepsFromArrived(q, 1, "m", cuts);
    StepsFromArrived(q, 2, "m", cuts);
  }

  lemma StepsOnN(q: Query, cuts: Cuts)
    requires Laid(q) && AfterDirect(cuts)
    ensures Successors(q, 9, cuts) == [(10, 0)]
  {
    TwoReady(4, 5, 9, 4, cuts);
    StepsFromArrived(q, 4, "n", cuts);
  }

  lemma StepsOnEnds(q: Query, cuts: Cuts)
    requires Laid(q) && AfterDirect(cuts)
    ensures Successors(q, 13, cuts) == [] && Successors(q, 17, cuts) == [(TARGET, 0)]
  {
    OneReady(6, 13, 6, cuts);
    StepsFromArrived(q, 6, "s", cuts);
    StepsFromArrived(q, 8, "t", cuts);
  }

  // The loop after every turn.
  function Stage1(): Loop { Loop(map[12 := 0, 7 := 1], map[7 := 12], {12}, [7]) }

  function Stage2(): Loop {
    var l := Stage1();
    Loop(l.distance[0 := 1][2 := 1][4 := 1], l.previous[0 := 7][2 := 7][4 := 7], l.done + {7}, [4, 2, 0])
  }

  function Stage3(): Loop {
    var l := Stage2();
    Loop(l.distance[3 := 2], l.previous[3 := 4], l.done + {4}, [2, 0, 3])
  }

  function Stage4(): Loop {
    var l := Stage3();
    Loop(l.distance[5 := 2], l.previous[5 := 2], l.done + {2}, [0, 3, 5])
  }

  function Stage5(): Loop {
    var l := Stage4();
    Loop(l.distance[9 := 2], l.previous[9 := 0], l.done + {0}, [3, 5, 9])
  }

  function Stage6(): Loop {
    var l := Stage5();
    Loop(l.distance[6 := 2], l.previous[6 := 3], l.done + {3}, [6, 5, 9])
  }

  function Stage7(): Loop {
    var l := Stage6();
    Loop(l.distance[13 := 3][17 := 3], l.previous[13 := 6][17 := 6], l.done + {6}, [5, 9, 13, 17])
  }

  function Stage8(): Loop {
    var l := Stage7();
    Loop(l.distance, l.previous, l.done + {5}, [9, 13, 17])
  }

  function Stage9(): Loop {
    var l := Stage8();
    Loop(l.distance[10 := 2], l.previous[10 := 9], l.done + {9}, [10, 13, 17])
  }

  function Stage10(): Loop {
    var l := Stage9();
    Loop(l.distance[15 := 3], l.previous[15 := 10], l.done + {10}, [13, 17, 15])
  }

  function Stage11(): Loop {
    var l := Stage10();
    Loop(l.distance, l.previous, l.done + {13}, [17, 15])
  }

  function Stage12(): Loop {
    var l := Stage11();
    Loop(l.distance[TARGET := 3], l.previous[TARGET := 17], l.done + {17}, [TARGET, 15])
  }

  lemma Turns1(budget: int)
    requires budget >= 3
    ensures RelaxAll(Taken(Begin(12)), 12, 0, [(7, 1)], budget) == Stage1()
  {
    RelaxOne(Taken(Begin(12)), 12, 0, (7, 1), budget);
  }

  lemma Knows1(l: Loop)
    requires l == Stage1()
    ensures l.queue == [7] && 7 !in l.done && 7 in l.distance && l.distance[7] == 1
    ensures 0 !in l.distance && 2 !in l.distance && 4 !in l.distance
  {}

  lemma Turns2(l: Loop, budget: int)
    requires budget >= 3 && l.queue == [7] && 7 !in l.done && 7 in l.distance && l.distance[7] == 1
    requires 0 !in l.distance && 2 !in l.distance && 4 !in l.distance
    ensures RelaxAll(Taken(l), 7, 1, [(0, 0), (2, 0), (4, 0)], budget)
         == Loop(l.distance[0 := 1][2 := 1][4 := 1], l.previous[0 := 7][2 := 7][4 := 7], l.done + {7}, [4, 2, 0])
  {
    RelaxOne(Taken(l), 7, 1, (0, 0), budget);
    RelaxTwo(Taken(l), 7, 1, (0, 0), (2, 0), budget);
    RelaxThree(Taken(l), 7, 1, (0, 0), (2, 0), (4, 0), budget);
  }

  lemma Knows2(l: Loop)
    requires l == Stage2()
    ensures l.queue == [4, 2, 0] && 4 !in l.done && 4 in l.distance && l.distance[4] == 1
    ensures 3 !in l.distance
  {}

  lemma Turns3(l: Loop, budget: int)
    requires budget >= 3 && l.queue == [4, 2, 0] && 4 !in l.done && 4 in l.distance && l.distance[4] == 1
    requires 3 !in l.distance
    ensures RelaxAll(Taken(l), 4, 1, [(3, 1)], budget)
         == Loop(l.distance[3 := 2], l.previous[3 := 4], l.done + {4}, [2, 0, 3])
  {
    RelaxOne(Taken(l), 4, 1, (3, 1), budget);
  }

  lemma Knows3(l: Loop)
    requires l == Stage3()
    ensures l.queue == [2, 0, 3] && 2 !in l.done && 2 in l.distance && l.distance[2] == 1
    ensures 5 !in l.distance
  {}

  lemma Turns4(l: Loop, budget: int)
    requires budget >= 3 && l.queue == [2, 0, 3] && 2 !in l.done && 2 in l.distance && l.distance[2] == 1
    requires 5 !in l.distance
    ensures RelaxAll(Taken(l), 2, 1, [(5, 1)], budget)
         == Loop(l.distance[5 := 2], l.previous[5 := 2], l.done + {2}, [0, 3, 5])
  {
    RelaxOne(Taken(l), 2, 1, (5, 1), budget);
  }

  lemma Knows4(l: Loop)
    requires l == Stage4()
    ensures l.queue == [0, 3, 5] && 0 !in l.done && 0 in l.distance && l.distance[0] == 1
    ensures 9 !in l.distance
  {}

  lemma Turns5(l: Loop, budget: int)
    requires budget >= 3 && l.queue == [0, 3, 5] && 0 !in l.done && 0 in l.distance && l.distance[0] == 1
    requires 9 !in l.distance
    ensures RelaxAll(Taken(l), 0, 1, [(9, 1)], budget)
         == Loop(l.distance[9 := 2], l.previous[9 := 0], l.done + {0}, [3, 5, 9])
  {
    RelaxOne(Taken(l), 0, 1, (9, 1), budget);
  }

  lemma Knows5(l: Loop)
    requires l == Stage5()
    ensures l.queue == [3, 5, 9] && 3 !in l.done && 3 in l.distance && l.distance[3] == 2 && 0 in l.distance
    ensures l.distance[0] == 1 && 4 in l.distance && l.distance[4] == 1
    ensures 6 !in l.distance
  {}

  lemma Turns6(l: Loop, budget: int)
    requires budget >= 3 && l.queue == [3, 5, 9] && 3 !in l.done && 3 in l.distance && l.distance[3] == 2
    requires 0 in l.distance && l.distance[0] == 1 && 4 in l.distance && l.distance[4] == 1
    requires 6 !in l.distance
    ensures RelaxAll(Taken(l), 3, 2, [(0, 0), (4, 0), (6, 0)], budget)
         == Loop(l.distance[6 := 2], l.previous[6 := 3], l.done + {3}, [6, 5, 9])
  {
    RelaxOne(Taken(l), 3, 2, (0, 0), budget);
    RelaxTwo(Taken(l), 3, 2, (0, 0), (4, 0), budget);
    RelaxThree(Taken(l), 3, 2, (0, 0), (4, 0), (6, 0), budget);
  }

  lemma Knows6(l: Loop)
    requires l == Stage6()
    ensures l.queue == [6, 5, 9] && 6 !in l.done && 6 in l.distance && l.distance[6] == 2
    ensures 13 !in l.distance && 17 !in l.distance
  {}

  lemma Turns7(l: Loop, budget: int)
    requires budget >= 3 && l.queue == [6, 5, 9] && 6 !in l.done && 6 in l.distance && l.distance[6] == 2
    requires 13 !in l.distance && 17 !in l.distance
    ensures RelaxAll(Taken(l), 6, 2, [(13, 1), (17, 1)], budget)
         == Loop(l.distance[13 := 3][17 := 3], l.previous[13 := 6][17 := 6], l.done + {6}, [5, 9, 13, 17])
  {
    RelaxOne(Taken(l), 6, 2, (13, 1), budget);
    RelaxTwo(Taken(l), 6, 2, (13, 1), (17, 1), budget);
  }

  lemma Knows7(l: Loop)
    requires l == Stage7()
    ensures l.queue == [5, 9, 13, 17] && 5 !in l.done && 5 in l.distance && l.distance[5] == 2 && 0 in l.distance
    ensures l.distance[0] == 1 && 2 in l.distance && l.distance[2] == 1 && 6 in l.distance && l.distance[6] == 2
  {}

  lemma Turns8(l: Loop, budget: int)
    requires budget >= 3 && l.queue == [5, 9, 13, 17] && 5 !in l.done && 5 in l.distance && l.distance[5] == 2
    requires 0 in l.distance && l.distance[0] == 1 && 2 in l.distance && l.distance[2] == 1 && 6 in l.distance
    requires l.distance[6] == 2
    ensures RelaxAll(Taken(l), 5, 2, [(0, 0), (2, 0), (6, 0)], budget)
         == Loop(l.distance, l.previous, l.done + {5}, [9, 13, 17])
  {
    RelaxOne(Taken(l), 5, 2, (0, 0), budget);
    RelaxTwo(Taken(l), 5, 2, (0, 0), (2, 0), budget);
    RelaxThree(Taken(l), 5, 2, (0, 0), (2, 0), (6, 0), budget);
  }

  lemma Knows8(l: Loop)
    requires l == Stage8()
    ensures l.queue == [9, 13, 17] && 9 !in l.done && 9 in l.distance && l.distance[9] == 2
    ensures 10 !in l.distance
  {}

  lemma Turns9(l: Loop, budget: int)
    requires budget >= 3 && l.queue == [9, 13, 17] && 9 !in l.done && 9 in l.distance && l.distance[9] == 2
    requires 10 !in l.distance
    ensures RelaxAll(Taken(l), 9, 2, [(10, 0)], budget)
         == Loop(l.distance[10 := 2], l.previous[10 := 9], l.done + {9}, [10, 13, 17])
  {
    RelaxOne(Taken(l), 9, 2, (10, 0), budget);
  }

  lemma Knows9(l: Loop)
    requires l == Stage9()
    ensures l.queue == [10, 13, 17] && 10 !in l.done && 10 in l.distance && l.distance[10] == 2
    ensures 15 !in l.distance
  {}

  lemma Turns10(l: Loop, budget: int)
    requires budget >= 3 && l.queue == [10, 13, 17] && 10 !in l.done && 10 in l.distance && l.distance[10] == 2
    requires 15 !in l.distance
    ensures RelaxAll(Taken(l), 10, 2, [(15, 1)], budget)
         == Loop(l.distance[15 := 3], l.previous[15 := 10], l.done + {10}, [13, 17, 15])
  {
    RelaxOne(Taken(l), 10, 2, (15, 1), budget);
  }

  lemma Knows10(l: Loop)
    requires l == Stage10()
    ensures l.queue == [13, 17, 15] && 13 !in l.done && 13 in l.distance && l.distance[13] == 3
  {}

  lemma Turns11(l: Loop, budget: int)
    requires budget >= 3 && l.queue == [13, 17, 15] && 13 !in l.done && 13 in l.distance && l.distance[13] == 3
    ensures RelaxAll(Taken(l), 13, 3, [], budget)
         == Loop(l.distance, l.previous, l.done + {13}, [17, 15])
  {
    RelaxNone(Taken(l), 13, 3, budget);
  }

  lemma Knows11(l: Loop)
    requires l == Stage11()
    ensures l.queue == [17, 15] && 17 !in l.done && 17 in l.distance && l.distance[17] == 3
    ensures TARGET !in l.distance
  {}

  lemma Turns12(l: Loop, budget: int)
    requires budget >= 3 && l.queue == [17, 15] && 17 !in l.done && 17 in l.distance && l.distance[17] == 3
    requires TARGET !in l.distance
    ensures RelaxAll(Taken(l), 17, 3, [(TARGET, 0)], budget)
         == Loop(l.distance[TARGET := 3], l.previous[TARGET := 17], l.done + {17}, [TARGET, 15])
  {
    RelaxOne(Taken(l), 17, 3, (TARGET, 0), budget);
  }

  // The search comes by every stage.
  ghost predicate Reaches(q: Query, cuts: Cuts, budget: int, l: Loop) {
    Mazed(q) && AfterDirect(cuts) && budget >= 3 && ComesTo(q, 12, cuts, budget, l)
  }

  lemma Reaches1(q: Query, cuts: Cuts, budget: int)
    requires Mazed(q) && AfterDirect(cuts) && budget >= 3
    ensures Reaches(q, cuts, budget, Stage1())
  {
    ComesToBegin(q, 12, cuts, budget);
    StepsDouble(q, cuts);
    Turns1(budget);
    NextTurn(q, 12, cuts, budget, Begin(12), [(7, 1)], Stage1());
  }

  lemma Reaches2(q: Query, cuts: Cuts, budget: int, l: Loop, l': Loop)
    requires l == Stage1() && l' == Stage2() && Reaches(q, cuts, budget, l)
    ensures Reaches(q, cuts, budget, l')
  {
    Knows1(l);
    Turns2(l, budget);
    StepsOnM(q, cuts);
    NextTurn(q, 12, cuts, budget, l, [(0, 0), (2, 0), (4, 0)], l');
  }

  lemma Reaches3(q: Query, cuts: Cuts, budget: int, l: Loop, l': Loop)
    requires l == Stage2() && l' == Stage3() && Reaches(q, cuts, budget, l)
    ensures Reaches(q, cuts, budget, l')
  {
    Knows2(l);
    Turns3(l, budget);
    StepsReady(q, cuts);
    NextTurn(q, 12, cuts, budget, l, [(3, 1)], l');
  }

  lemma Reaches4(q: Query, cuts: Cuts, budget: int, l: Loop, l': Loop)
    requires l == Stage3() && l' == Stage4() && Reaches(q, cuts, budget, l)
    ensures Reaches(q, cuts, budget, l')
  {
    Knows3(l);
    Turns4(l, budget);
    StepsReady(q, cuts);
    NextTurn(q, 12, cuts, budget, l, [(5, 1)], l');
  }

  lemma Reaches5(q: Query, cuts: Cuts, budget: int, l: Loop, l': Loop)
    requires l == Stage4() && l' == Stage5() && Reaches(q, cuts, budget, l)
    ensures Reaches(q, cuts, budget, l')
  {
    Knows4(l);
    Turns5(l, budget);
    StepsReady(q, cuts);
    NextTurn(q, 12, cuts, budget, l, [(9, 1)], l');
  }

  lemma Reaches6(q: Query, cuts: Cuts, budget: int, l: Loop, l': Loop)
    requires l == Stage5() && l' == Stage6() && Reaches(q, cuts, budget, l)
    ensures Reaches(q, cuts, budget, l')
  {
    Knows5(l);
    Turns6(l, budget);
    StepsOnM(q, cuts);
    NextTurn(q, 12, cuts, budget, l, [(0, 0), (4, 0), (6, 0)], l');
  }

  lemma Reaches7(q: Query, cuts: Cuts, budget: int, l: Loop, l': Loop)
    requires l == Stage6() && l' == Stage7() && Reaches(q, cuts, budget, l)
    ensures Reaches(q, cuts, budget, l')
  {
    Knows6(l);
    Turns7(l, budget);
    StepsDouble(q, cuts);
    NextTurn(q, 12, cuts, budget, l, [(13, 1), (17, 1)], l');
  }

  lemma Reaches8(q: Query, cuts: Cuts, budget: int, l: Loop, l': Loop)
    requires l == Stage7() && l' == Stage8() && Reaches(q, cuts, budget, l)
    ensures Reaches(q, cuts, budget, l')
  {
    Knows7(l);
    Turns8(l, budget);
    StepsOnM(q, cuts);
    NextTurn(q, 12, cuts, budget, l, [(0, 0), (2, 0), (6, 0)], l');
  }

  lemma Reaches9(q: Query, cuts: Cuts, budget: int, l: Loop, l': Loop)
    requires l == Stage8() && l' == Stage9() && Reaches(q, cuts, budget, l)
    ensures Reaches(q, cuts, budget, l')
  {
    Knows8(l);
    Turns9(l, budget);
    StepsOnN(q, cuts);
    NextTurn(q, 12, cuts, budget, l, [(10, 0)], l');
  }

  lemma Reaches10(q: Query, cuts: Cuts, budget: int, l: Loop, l': Loop)
    requires l == Stage9() && l' == Stage10() && Reaches(q, cuts, budget, l)
    ensures Reaches(q, cuts, budget, l')
  {
    Knows9(l);
    Turns10(l, budget);
    StepsReady(q, cuts);
    NextTurn(q, 12, cuts, budget, l, [(15, 1)], l');
  }

  lemma Reaches11(q: Query, cuts: Cuts, budget: int, l: Loop, l': Loop)
    requires l == Stage10() && l' == Stage11() && Reaches(q, cuts, budget, l)
    ensures Reaches(q, cuts, budget, l')
  {
    Knows10(l);
    Turns11(l, budget);
    StepsOnEnds(q, cuts);
    NextTurn(q, 12, cuts, budget, l, [], l');
  }

  lemma Reaches12(q: Query, cuts: Cuts, budget: int, l: Loop, l': Loop)
    requires l == Stage11() && l' == Stage12() && Reaches(q, cuts, budget, l)
    ensures Reaches(q, cuts, budget, l')
  {
    Knows11(l);
    Turns12(l, budget);
    StepsOnEnds(q, cuts);
    NextTurn(q, 12, cuts, budget, l, [(TARGET, 0)], l');
  }

  lemma ReachesTarget(q: Query, cuts: Cuts, budget: int)
    requires Mazed(q) && AfterDirect(cuts) && budget >= 3
    ensures Reaches(q, cuts, budget, Stage12())
  {
    Reaches1(q, cuts, budget);
    Reaches2(q, cuts, budget, Stage1(), Stage2());
    Reaches3(q, cuts, budget, Stage2(), Stage3());
    Reaches4(q, cuts, budget, Stage3(), Stage4());
    Reaches5(q, cuts, budget, Stage4(), Stage5());
    Reaches6(q, cuts, budget, Stage5(), Stage6());
    Reaches7(q, cuts, budget, Stage6(), Stage7());
    Reaches8(q, cuts, budget, Stage7(), Stage8());
    Reaches9(q, cuts, budget, Stage8(), Stage9());
    Reaches10(q, cuts, budget, Stage9(), Stage10());
    Reaches11(q, cuts, budget, Stage10(), Stage11());
    Reaches12(q, cuts, budget, Stage11(), Stage12());
  }

  ghost predicate Steps(l: Loop, p: State, s: State) {
    s in l.distance && s in l.previous && l.previous[s] == p && p in l.distance && Rank(l, p) < Rank(l, s)
  }

  lemma Link12To7(l: Loop)
    requires l == Stage12()
    ensures Steps(l, 12, 7)
  {}

  lemma Link7To4(l: Loop)
    requires l == Stage12()
    ensures Steps(l, 7, 4)
  {}

  lemma Link4To3(l: Loop)
    requires l == Stage12()
    ensures Steps(l, 4, 3)
  {}

  lemma Link3To6(l: Loop)
    requires l == Stage12()
    ensures Steps(l, 3, 6)
  {}

  lemma Link6To17(l: Loop)
    requires l == Stage12()
    ensures Steps(l, 6, 17)
  {}

  lemma LastLink(l: Loop)
    requires l == Stage12()
    ensures l.queue == [TARGET, 15] && TARGET !in l.done && Steps(l, 17, TARGET)
  {}

  lemma TracedOn(l: Loop, p: State, s: State)
    requires Steps(l, p, s) && s != 12
    ensures Trace(l, s, 12) == Trace(l, p, 12) + [s]
  {}

  lemma LinksTraced(l: Loop)
    requires Steps(l, 12, 7) && Steps(l, 7, 4) && Steps(l, 4, 3)
    requires Steps(l, 3, 6) && Steps(l, 6, 17) && Steps(l, 17, TARGET)
    ensures Trace(l, TARGET, 12) == [12, 7, 4, 3, 6, 17, TARGET]
  {
    TracedOn(l, 12, 7);
    TracedOn(l, 7, 4);
    TracedOn(l, 4, 3);
    TracedOn(l, 3, 6);
    TracedOn(l, 6, 17);
    TracedOn(l, 17, TARGET);
  }

  lemma TargetTraced(l: Loop)
    requires l == Stage12()
    ensures l.queue == [TARGET, 15] && TARGET !in l.done && TARGET in l.distance
    ensures Trace(l, TARGET, 12) == [12, 7, 4, 3, 6, 17, TARGET]
  {
    Link12To7(l);
    Link7To4(l);
    Link4To3(l);
    Link3To6(l);
    Link6To17(l);
    LastLink(l);
    LinksTraced(l);
  }

  // It comes back by `z` on m, both arrived at and left.
  lemma SearchTurnsBack(q: Query, cuts: Cuts, budget: int)
    requires Mazed(q) && AfterDirect(cuts) && budget >= 3
    ensures Shortest(q, 12, cuts, budget) == Some([12, 7, 4, 3, 6, 17, TARGET])
  {
    ReachesTarget(q, cuts, budget);
    TargetTraced(Stage12());
    LastTurn(q, 12, cuts, budget, Stage12());
  }
}
