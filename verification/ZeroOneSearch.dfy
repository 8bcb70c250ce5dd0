// `_Search.shortest`: breadth-first search over a deque, free moves to the front and directed
// edges to the back.
//
// The search is a function first (the k shortest paths rely on repeating a search giving the same
// path), with its correctness proved over the turns of the loop; the method below runs the loop.
module ZeroOneSearch {
  import opened Order
  import opened Model
  import opened Sets
  import opened PathGraphs

  datatype Loop = Loop(
    distance: map<State, nat>,
    previous: map<State, State>,
    done: set<State>,
    queue: seq<State>)

  function Begin(start: State): Loop { Loop(map[start := 0], map[], {}, [start]) }

  function Relax(l: Loop, state: State, total: nat, following: State, cost: nat, budget: int): Loop {
    if total > budget || (following in l.distance && total >= l.distance[following]) then l
    else
      l.(distance := l.distance[following := total],
         previous := l.previous[following := state],
         queue := if cost == 0 then [following] + l.queue else l.queue + [following])
  }

  // Offer the successors of `state`, reached at `here`, in order.
  function RelaxAll(l: Loop, state: State, here: nat, steps: seq<(State, nat)>, budget: int): Loop {
    if steps == [] then l
    else
      var last := steps[|steps| - 1];
      Relax(RelaxAll(l, state, here, steps[..|steps| - 1], budget), state, here + last.1, last.0, last.1, budget)
  }

  // One turn of the loop on a queue that is not empty and does not start with the target.
  function Turn(q: Query, cuts: Cuts, budget: int, l: Loop): Loop
    requires l.queue != []
  {
    var state, rest := l.queue[0], l.(queue := l.queue[1..]);
    if state in l.done || state !in l.distance then rest
    else RelaxAll(rest.(done := l.done + {state}), state, l.distance[state], Successors(q, state, cuts), budget)
  }

  // Distances, with the states entered at no cost after those they are entered from: this grows
  // along every move.
  function Rank(l: Loop, s: State): nat
    requires s in l.distance
  {
    2 * l.distance[s] + if s == SOURCE || (s >= 0 && s % 2 == 1) then 0 else 1
  }

  // Back along `previous` to the start.
  function Trace(l: Loop, state: State, start: State): Path
    requires state in l.distance
    decreases Rank(l, state)
  {
    if state == start || state !in l.previous then [state]
    else
      var p := l.previous[state];
      if p in l.distance && Rank(l, p) < Rank(l, state) then Trace(l, p, start) + [state] else [state]
  }

  // ---------- the loop as a function ----------

  // TARGET is -2, SOURCE -1, and every definition has two states.
  predicate IsState(q: Query, s: State) { TARGET <= s < 2 * |q.graph.keys| }

  // Everything the loop holds is a state of the graph.
  ghost predicate Inside(q: Query, l: Loop) {
    && (forall s :: s in l.queue ==> IsState(q, s))
    && (forall s :: s in l.done ==> IsState(q, s))
  }

  ghost function Undone(q: Query, l: Loop): set<State> {
    set s | TARGET <= s < 2 * |q.graph.keys| && s !in l.done
  }

  lemma MoveInside(q: Query, a: State, b: State)
    requires q.graph.Valid() && Move(q, a, b)
    ensures IsState(q, a) && IsState(q, b)
  {
    if b >= 0 {
      var t: nat := b / 2;
      if a == SOURCE {
        assert t in q.graph.On(q.source);
        assert t < |q.graph.keys|;
      } else if a % 2 == 1 {
        assert t in q.graph.On(q.graph.keys[a / 2].nodeId);
        assert t < |q.graph.keys|;
      } else {
        var d: nat := a / 2;
        var e :| e in q.graph.From(d) && e.target == t;
        assert e.target < |q.graph.keys|;
      }
    }
  }

  lemma SuccessorsInside(q: Query, state: State, cuts: Cuts, b: State, c: nat)
    requires q.graph.Valid() && (b, c) in Successors(q, state, cuts)
    ensures IsState(q, b) && c == MoveCost(b)
  {
    SuccessorsAreMoves(q, state, cuts, b, c);
    MoveInside(q, state, b);
  }

  lemma {:induction false} RelaxAllInside(q: Query, l: Loop, state: State, here: nat, steps: seq<(State, nat)>,
                                          budget: int)
    requires Inside(q, l) && forall b, c :: (b, c) in steps ==> IsState(q, b)
    ensures Inside(q, RelaxAll(l, state, here, steps, budget)) && RelaxAll(l, state, here, steps, budget).done == l.done
  {
    if steps == [] {
    } else {
      var init, last := steps[..|steps| - 1], steps[|steps| - 1];
      RelaxAllInside(q, l, state, here, init, budget);
      assert (last.0, last.1) in steps;
    }
  }

  lemma TurnInside(q: Query, cuts: Cuts, budget: int, l: Loop)
    requires q.graph.Valid() && Inside(q, l) && l.queue != []
    ensures Inside(q, Turn(q, cuts, budget, l))
    ensures var l' := Turn(q, cuts, budget, l);
            (l'.done == l.done && |l'.queue| < |l.queue|) || |Undone(q, l')| < |Undone(q, l)|
  {
    var state := l.queue[0];
    assert state in l.queue;
    if state !in l.done && state in l.distance {
      var steps := Successors(q, state, cuts);
      forall b, c | (b, c) in steps ensures IsState(q, b) {
        SuccessorsInside(q, state, cuts, b, c);
      }
      var begun := l.(queue := l.queue[1..], done := l.done + {state});
      assert Inside(q, begun);
      RelaxAllInside(q, begun, state, l.distance[state], steps, budget);
      var l' := Turn(q, cuts, budget, l);
      assert state in Undone(q, l) && state !in Undone(q, l');
      SubsetSize(Undone(q, l'), Undone(q, l) - {state});
    }
  }

  ghost function Run(q: Query, start: State, cuts: Cuts, budget: int, l: Loop): Option<Path>
    requires q.graph.Valid() && Inside(q, l)
    decreases |Undone(q, l)|, |l.queue|
  {
    if l.queue == [] then None
    else if l.queue[0] == TARGET && TARGET !in l.done then
      if TARGET in l.distance then Some(Trace(l, TARGET, start)) else None
    else
      TurnInside(q, cuts, budget, l);
      Run(q, start, cuts, budget, Turn(q, cuts, budget, l))
  }

  // The path with the fewest directed edges from `start` to the target within `budget`.
  ghost function Shortest(q: Query, start: State, cuts: Cuts, budget: int): Option<Path>
    requires q.graph.Valid() && IsState(q, start)
  {
    if budget < 0 then None else Run(q, start, cuts, budget, Begin(start))
  }

  // ---------- what the loop keeps ----------

  // `keys` are the distances the queued states were pushed with.
  ghost predicate Queued(l: Loop, keys: seq<nat>, k: nat) {
    && |keys| == |l.queue|
    && (forall i :: 0 <= i < |keys| ==> k <= keys[i] <= k + 1)
    && (forall i, j :: 0 <= i < j < |keys| ==> keys[i] <= keys[j])
    && (forall i :: 0 <= i < |keys| ==> l.queue[i] in l.distance && l.distance[l.queue[i]] <= keys[i])
  }

  ghost predicate Waits(l: Loop, keys: seq<nat>, s: State)
    requires |keys| == |l.queue| && s in l.distance
  {
    exists i :: 0 <= i < |keys| && l.queue[i] == s && keys[i] == l.distance[s]
  }

  ghost predicate AllWait(l: Loop, keys: seq<nat>)
    requires |keys| == |l.queue|
  {
    forall s :: s in l.distance && s !in l.done ==> Waits(l, keys, s)
  }

  // `s` was reached from a state done before it, by an uncut move within the budget.
  ghost predicate Entered(q: Query, start: State, cuts: Cuts, budget: int, l: Loop, s: State)
    requires s in l.distance
  {
    && l.distance[s] <= budget
    && (s == start ==> l.distance[s] == 0 && s !in l.previous)
    && (s != start ==>
          && s in l.previous
          && var p := l.previous[s];
          && p in l.done && p in l.distance
          && Move(q, p, s) && Uncut(cuts, p, s)
          && l.distance[s] == l.distance[p] + MoveCost(s))
  }

  ghost predicate AllEntered(q: Query, start: State, cuts: Cuts, budget: int, l: Loop) {
    start in l.distance && forall s :: s in l.distance ==> Entered(q, start, cuts, budget, l, s)
  }

  // `t` is known to be no further than one move past `s`.
  ghost predicate Offered(l: Loop, s: State, t: State, budget: int)
    requires s in l.distance
  {
    l.distance[s] + MoveCost(t) <= budget ==> t in l.distance && l.distance[t] <= l.distance[s] + MoveCost(t)
  }

  ghost predicate Spread(q: Query, cuts: Cuts, budget: int, l: Loop, s: State) {
    s in l.distance && forall t :: Move(q, s, t) && Uncut(cuts, s, t) ==> Offered(l, s, t, budget)
  }

  // The states done are final.
  ghost predicate Done(l: Loop, k: nat) {
    forall s :: s in l.done ==> s in l.distance && l.distance[s] <= k && s != TARGET
  }

  ghost predicate Kept(q: Query, start: State, cuts: Cuts, budget: int, l: Loop, keys: seq<nat>, k: nat) {
    && Queued(l, keys, k) && AllWait(l, keys)
    && AllEntered(q, start, cuts, budget, l)
    && Done(l, k)
  }

  // ---------- relaxing one move ----------

  function Push(keys: seq<nat>, l: Loop, total: nat, following: State, cost: nat, budget: int): seq<nat> {
    if total > budget || (following in l.distance && total >= l.distance[following]) then keys
    else if cost == 0 then [total] + keys
    else keys + [total]
  }

  // What relaxing moves out of `state`, just done at distance `k`, keeps.
  lemma RelaxQueued(l: Loop, keys: seq<nat>, k: nat, state: State, following: State, cost: nat, budget: int)
    requires Queued(l, keys, k) && cost <= 1
    ensures Queued(Relax(l, state, k + cost, following, cost, budget), Push(keys, l, k + cost, following, cost, budget),
                   k)
  {}

  lemma RelaxWaits(l: Loop, keys: seq<nat>, k: nat, state: State, following: State, cost: nat, budget: int)
    requires Queued(l, keys, k) && AllWait(l, keys) && cost <= 1
    ensures var l' := Relax(l, state, k + cost, following, cost, budget);
            var keys' := Push(keys, l, k + cost, following, cost, budget);
            |keys'| == |l'.queue| && AllWait(l', keys')
  {
    var l' := Relax(l, state, k + cost, following, cost, budget);
    var keys' := Push(keys, l, k + cost, following, cost, budget);
    forall s | s in l'.distance && s !in l'.done ensures Waits(l', keys', s) {
      if l' != l && s == following {
        var i := if cost == 0 then 0 else |keys|;
        assert l'.queue[i] == s && keys'[i] == l'.distance[s];
      } else {
        assert Waits(l, keys, s);
        var i :| 0 <= i < |keys| && l.queue[i] == s && keys[i] == l.distance[s];
        var j := if l' != l && cost == 0 then i + 1 else i;
        assert l'.queue[j] == s && keys'[j] == l'.distance[s];
      }
    }
  }

  lemma RelaxEntered(q: Query, start: State, cuts: Cuts, budget: int, l: Loop, k: nat, state: State, following: State)
    requires AllEntered(q, start, cuts, budget, l) && Done(l, k)
    requires state in l.done && l.distance[state] == k
    requires Move(q, state, following) && Uncut(cuts, state, following)
    ensures AllEntered(q, start, cuts, budget,
                       Relax(l, state, k + MoveCost(following), following, MoveCost(following), budget))
  {
    var l' := Relax(l, state, k + MoveCost(following), following, MoveCost(following), budget);
    assert Entered(q, start, cuts, budget, l, start);
    forall s | s in l'.distance ensures Entered(q, start, cuts, budget, l', s) {
      if s == following && l' != l {
        assert l'.previous[s] == state && s != start && s != state;
      } else {
        assert Entered(q, start, cuts, budget, l, s);
      }
    }
  }

  lemma RelaxDone(l: Loop, start: State, k: nat, state: State, following: State, cost: nat, budget: int)
    requires Done(l, k)
    ensures Done(Relax(l, state, k + cost, following, cost, budget), k)
    ensures forall s :: s in l.done ==> Relax(l, state, k + cost, following, cost, budget).distance[s] == l.distance[s]
  {}

  lemma RelaxOffers(l: Loop, start: State, k: nat, state: State, following: State, budget: int, s: State, t: State)
    requires Done(l, k) && s in l.done
    requires (Offered(l, s, t, budget) || (s == state && t == following && l.distance[s] == k))
    ensures var l' := Relax(l, state, k + MoveCost(following), following, MoveCost(following), budget);
            s in l'.distance && Offered(l', s, t, budget)
  {}

  // ---------- a whole turn ----------

  function PushAll(keys: seq<nat>, l: Loop, state: State, k: nat, steps: seq<(State, nat)>, budget: int): seq<nat> {
    if steps == [] then keys
    else
      var init, last := steps[..|steps| - 1], steps[|steps| - 1];
      Push(PushAll(keys, l, state, k, init, budget), RelaxAll(l, state, k, init, budget),
           k + last.1, last.0, last.1, budget)
  }

  ghost predicate UncutMoves(q: Query, cuts: Cuts, state: State, steps: seq<(State, nat)>) {
    forall v :: v in steps ==> Move(q, state, v.0) && Uncut(cuts, state, v.0) && v.1 == MoveCost(v.0)
  }

  // Nothing done loses its distance or an offer made.
  ghost predicate OffersStay(l: Loop, l': Loop, budget: int) {
    && l'.done == l.done
    && (forall s :: s in l.done ==> s in l.distance && s in l'.distance && l'.distance[s] == l.distance[s])
    && (forall s, t :: s in l.done && Offered(l, s, t, budget) ==> Offered(l', s, t, budget))
  }

  ghost predicate OfferedAll(l: Loop, state: State, steps: seq<(State, nat)>, budget: int) {
    state in l.distance && forall v :: v in steps ==> Offered(l, state, v.0, budget)
  }

  // From `l` to `l'` by relaxing `steps` out of `state`, done at distance `k`.
  ghost predicate RelaxesTo(q: Query, start: State, cuts: Cuts, budget: int, l: Loop, l': Loop, keys: seq<nat>, k: nat,
                            state: State, steps: seq<(State, nat)>) {
    && Kept(q, start, cuts, budget, l', keys, k) && OffersStay(l, l', budget) && OfferedAll(l', state, steps, budget)
  }

  lemma OffersStayTrans(l: Loop, m: Loop, n: Loop, budget: int)
    requires OffersStay(l, m, budget) && OffersStay(m, n, budget)
    ensures OffersStay(l, n, budget)
  {}

  lemma RelaxesOn(q: Query, start: State, cuts: Cuts, budget: int, l: Loop, m: Loop, n: Loop, ms: seq<nat>,
                  ns: seq<nat>, k: nat, state: State, init: seq<(State, nat)>, last: (State, nat))
    requires RelaxesTo(q, start, cuts, budget, l, m, ms, k, state, init) && state in l.done
    requires RelaxesTo(q, start, cuts, budget, m, n, ns, k, state, [last])
    ensures RelaxesTo(q, start, cuts, budget, l, n, ns, k, state, init + [last])
  {
    OffersStayTrans(l, m, n, budget);
    forall v | v in init + [last] ensures Offered(n, state, v.0, budget) {
      assert v in init || v in [last];
    }
  }

  lemma RelaxStays(l: Loop, start: State, k: nat, state: State, following: State, budget: int)
    requires Done(l, k) && state in l.done && l.distance[state] == k
    ensures var l' := Relax(l, state, k + MoveCost(following), following, MoveCost(following), budget);
            OffersStay(l, l', budget) && state in l'.distance && Offered(l', state, following, budget)
  {
    var l' := Relax(l, state, k + MoveCost(following), following, MoveCost(following), budget);
    RelaxDone(l, start, k, state, following, MoveCost(following), budget);
    forall s, t | s in l.done && Offered(l, s, t, budget) ensures Offered(l', s, t, budget) {
      RelaxOffers(l, start, k, state, following, budget, s, t);
    }
    RelaxOffers(l, start, k, state, following, budget, state, following);
  }

  lemma RelaxKept(q: Query, start: State, cuts: Cuts, budget: int, l: Loop, keys: seq<nat>, k: nat, state: State,
                  following: State)
    requires Kept(q, start, cuts, budget, l, keys, k) && state in l.done && l.distance[state] == k
    requires Move(q, state, following) && Uncut(cuts, state, following)
    ensures Kept(q, start, cuts, budget,
                 Relax(l, state, k + MoveCost(following), following, MoveCost(following), budget),
                 Push(keys, l, k + MoveCost(following), following, MoveCost(following), budget), k)
  {
    var c := MoveCost(following);
    RelaxQueued(l, keys, k, state, following, c, budget);
    RelaxWaits(l, keys, k, state, following, c, budget);
    RelaxEntered(q, start, cuts, budget, l, k, state, following);
    RelaxDone(l, start, k, state, following, c, budget);
  }

  lemma RelaxKeeps(q: Query, start: State, cuts: Cuts, budget: int, l: Loop, l': Loop, keys: seq<nat>, keys': seq<nat>,
                   k: nat, state: State, following: State)
    requires Kept(q, start, cuts, budget, l, keys, k) && state in l.done && l.distance[state] == k
    requires Move(q, state, following) && Uncut(cuts, state, following)
    requires l' == Relax(l, state, k + MoveCost(following), following, MoveCost(following), budget)
    requires keys' == Push(keys, l, k + MoveCost(following), following, MoveCost(following), budget)
    ensures RelaxesTo(q, start, cuts, budget, l, l', keys', k, state, [(following, MoveCost(following))])
  {
    RelaxKept(q, start, cuts, budget, l, keys, k, state, following);
    RelaxStays(l, start, k, state, following, budget);
  }

  lemma StillDone(q: Query, start: State, cuts: Cuts, budget: int, l: Loop, mid: Loop, keys: seq<nat>, k: nat,
                  state: State, init: seq<(State, nat)>)
    requires RelaxesTo(q, start, cuts, budget, l, mid, keys, k, state, init)
    requires state in l.done && state in l.distance && l.distance[state] == k
    ensures Kept(q, start, cuts, budget, mid, keys, k) && state in mid.done && state in mid.distance
    ensures mid.distance[state] == k
  {}

  lemma RelaxesNext(q: Query, start: State, cuts: Cuts, budget: int, l: Loop, mid: Loop, end: Loop, midKeys: seq<nat>,
                    endKeys: seq<nat>, k: nat, state: State, init: seq<(State, nat)>, following: State)
    requires RelaxesTo(q, start, cuts, budget, l, mid, midKeys, k, state, init)
    requires state in l.done && state in l.distance && l.distance[state] == k
    requires Move(q, state, following) && Uncut(cuts, state, following)
    requires end == Relax(mid, state, k + MoveCost(following), following, MoveCost(following), budget)
    requires endKeys == Push(midKeys, mid, k + MoveCost(following), following, MoveCost(following), budget)
    ensures RelaxesTo(q, start, cuts, budget, l, end, endKeys, k, state, init + [(following, MoveCost(following))])
  {
    StillDone(q, start, cuts, budget, l, mid, midKeys, k, state, init);
    RelaxKeeps(q, start, cuts, budget, mid, end, midKeys, endKeys, k, state, following);
    RelaxesOn(q, start, cuts, budget, l, mid, end, midKeys, endKeys, k, state, init, (following, MoveCost(following)));
  }

  lemma RelaxAllSnoc(l: Loop, keys: seq<nat>, state: State, k: nat, steps: seq<(State, nat)>, budget: int,
                     following: State, cost: nat)
    ensures RelaxAll(l, state, k, steps + [(following, cost)], budget)
         == Relax(RelaxAll(l, state, k, steps, budget), state, k + cost, following, cost, budget)
    ensures PushAll(keys, l, state, k, steps + [(following, cost)], budget)
         == Push(PushAll(keys, l, state, k, steps, budget), RelaxAll(l, state, k, steps, budget),
                 k + cost, following, cost, budget)
  {
    assert (steps + [(following, cost)])[..|steps|] == steps;
  }

  ghost predicate RelaxedAll(q: Query, start: State, cuts: Cuts, budget: int, l: Loop, keys: seq<nat>, k: nat,
                             state: State, steps: seq<(State, nat)>) {
    RelaxesTo(q, start, cuts, budget, l, RelaxAll(l, state, k, steps, budget),
              PushAll(keys, l, state, k, steps, budget), k, state, steps)
  }

  lemma RelaxAllStep(q: Query, start: State, cuts: Cuts, budget: int, l: Loop, keys: seq<nat>, k: nat, state: State,
                     init: seq<(State, nat)>, following: State)
    requires RelaxedAll(q, start, cuts, budget, l, keys, k, state, init)
    requires state in l.done && state in l.distance && l.distance[state] == k
    requires Move(q, state, following) && Uncut(cuts, state, following)
    ensures RelaxedAll(q, start, cuts, budget, l, keys, k, state, init + [(following, MoveCost(following))])
  {
    var steps := init + [(following, MoveCost(following))];
    RelaxAllSnoc(l, keys, state, k, init, budget, following, MoveCost(following));
    RelaxesNext(q, start, cuts, budget, l, RelaxAll(l, state, k, init, budget), RelaxAll(l, state, k, steps, budget),
                PushAll(keys, l, state, k, init, budget), PushAll(keys, l, state, k, steps, budget),
                k, state, init, following);
  }

  lemma {:induction false} RelaxAllKeeps(q: Query, start: State, cuts: Cuts, budget: int, l: Loop, keys: seq<nat>,
                                         k: nat, state: State, steps: seq<(State, nat)>)
    requires Kept(q, start, cuts, budget, l, keys, k) && state in l.done && l.distance[state] == k
    requires UncutMoves(q, cuts, state, steps)
    ensures RelaxedAll(q, start, cuts, budget, l, keys, k, state, steps)
    decreases |steps|
  {
    if steps == [] {
    } else {
      var init, last := steps[..|steps| - 1], steps[|steps| - 1];
      RelaxAllKeeps(q, start, cuts, budget, l, keys, k, state, init);
      assert last in steps && last == (last.0, MoveCost(last.0));
      RelaxAllStep(q, start, cuts, budget, l, keys, k, state, init, last.0);
      LastApart(steps);
    }
  }

  lemma DropDone(q: Query, start: State, cuts: Cuts, budget: int, l: Loop, keys: seq<nat>, k: nat)
    requires Kept(q, start, cuts, budget, l, keys, k) && l.queue != [] && l.queue[0] in l.done
    ensures Kept(q, start, cuts, budget, l.(queue := l.queue[1..]), keys[1..], k)
  {
    var l' := l.(queue := l.queue[1..]);
    forall s | s in l'.distance && s !in l'.done ensures Waits(l', keys[1..], s) {
      assert Waits(l, keys, s);
      var i :| 0 <= i < |keys| && l.queue[i] == s && keys[i] == l.distance[s];
      assert l'.queue[i - 1] == s && keys[1..][i - 1] == l'.distance[s];
    }
    forall s | s in l'.distance ensures Entered(q, start, cuts, budget, l', s) {
      assert Entered(q, start, cuts, budget, l, s);
    }
  }

  // The front of the queue is as close as anything still waiting.
  lemma FrontIsNearest(l: Loop, keys: seq<nat>, k: nat, s: State)
    requires Queued(l, keys, k) && AllWait(l, keys) && l.queue != [] && s in l.distance && s !in l.done
    requires l.queue[0] !in l.done
    ensures l.distance[l.queue[0]] == keys[0] <= l.distance[s]
  {
    assert Waits(l, keys, s) && Waits(l, keys, l.queue[0]);
  }

  function Taken(l: Loop): Loop
    requires l.queue != []
  {
    l.(queue := l.queue[1..], done := l.done + {l.queue[0]})
  }

  lemma TakenWaits(l: Loop, keys: seq<nat>, k: nat)
    requires Queued(l, keys, k) && AllWait(l, keys) && l.queue != []
    ensures AllWait(Taken(l), keys[1..])
  {
    forall x | x in l.distance && x !in Taken(l).done ensures Waits(Taken(l), keys[1..], x) {
      assert Waits(l, keys, x);
      var i :| 0 <= i < |keys| && l.queue[i] == x && keys[i] == l.distance[x];
      assert Taken(l).queue[i - 1] == x && keys[1..][i - 1] == l.distance[x];
    }
  }

  lemma TakenEntered(q: Query, start: State, cuts: Cuts, budget: int, l: Loop)
    requires AllEntered(q, start, cuts, budget, l) && l.queue != []
    ensures AllEntered(q, start, cuts, budget, Taken(l))
  {
    forall x | x in l.distance ensures Entered(q, start, cuts, budget, Taken(l), x) {
      assert Entered(q, start, cuts, budget, l, x);
    }
  }

  lemma TakenDone(l: Loop, k: nat, k': nat)
    requires Done(l, k) && l.queue != [] && l.queue[0] != TARGET
    requires l.queue[0] in l.distance && l.distance[l.queue[0]] <= k' && k <= k'
    ensures Done(Taken(l), k')
  {}

  lemma TakeFront(q: Query, start: State, cuts: Cuts, budget: int, l: Loop, keys: seq<nat>, k: nat)
    requires Kept(q, start, cuts, budget, l, keys, k) && l.queue != [] && l.queue[0] !in l.done && l.queue[0] != TARGET
    ensures l.queue[0] in l.distance && l.distance[l.queue[0]] == keys[0]
    ensures Kept(q, start, cuts, budget, Taken(l), keys[1..], keys[0])
  {
    FrontIsNearest(l, keys, k, l.queue[0]);
    TakenWaits(l, keys, k);
    TakenEntered(q, start, cuts, budget, l);
    TakenDone(l, k, keys[0]);
  }

  // The moves out of everything done have been offered.
  ghost predicate Ready01(q: Query, start: State, cuts: Cuts, budget: int, l: Loop, keys: seq<nat>, k: nat) {
    Kept(q, start, cuts, budget, l, keys, k) && forall s :: s in l.done ==> Spread(q, cuts, budget, l, s)
  }

  lemma SpreadStays(q: Query, cuts: Cuts, budget: int, l: Loop, l': Loop, s: State)
    requires OffersStay(l, l', budget) && s in l.done && Spread(q, cuts, budget, l, s)
    ensures Spread(q, cuts, budget, l', s)
  {}

  lemma SpreadNow(q: Query, cuts: Cuts, budget: int, l: Loop, s: State)
    requires OfferedAll(l, s, Successors(q, s, cuts), budget)
    ensures Spread(q, cuts, budget, l, s)
  {
    forall t | Move(q, s, t) && Uncut(cuts, s, t) ensures Offered(l, s, t, budget) {
      SuccessorsAreMoves(q, s, cuts, t, MoveCost(t));
      assert (t, MoveCost(t)) in Successors(q, s, cuts);
    }
  }

  lemma TurnKeeps(q: Query, start: State, cuts: Cuts, budget: int, l: Loop, keys: seq<nat>, k: nat)
    returns (keys': seq<nat>, k': nat)
    requires Ready01(q, start, cuts, budget, l, keys, k) && l.queue != []
    requires l.queue[0] == TARGET ==> TARGET in l.done
    ensures Ready01(q, start, cuts, budget, Turn(q, cuts, budget, l), keys', k')
  {
    var state := l.queue[0];
    if state in l.done {
      DropDone(q, start, cuts, budget, l, keys, k);
      keys', k' := keys[1..], k;
    } else {
      TakeFront(q, start, cuts, budget, l, keys, k);
      k' := keys[0];
      var steps := Successors(q, state, cuts);
      forall v | v in steps ensures Move(q, state, v.0) && Uncut(cuts, state, v.0) && v.1 == MoveCost(v.0) {
        SuccessorsAreMoves(q, state, cuts, v.0, v.1);
      }
      keys' := PushAll(keys[1..], Taken(l), state, k', steps, budget);
      RelaxAllKeeps(q, start, cuts, budget, Taken(l), keys[1..], k', state, steps);
      var l' := Turn(q, cuts, budget, l);
      assert l' == RelaxAll(Taken(l), state, k', steps, budget);
      forall s | s in l'.done ensures Spread(q, cuts, budget, l', s) {
        if s == state {
          SpreadNow(q, cuts, budget, l', s);
        } else {
          TakenSpread(q, cuts, budget, l, s);
          SpreadStays(q, cuts, budget, Taken(l), l', s);
        }
      }
    }
  }

  lemma TakenSpread(q: Query, cuts: Cuts, budget: int, l: Loop, s: State)
    requires l.queue != [] && Spread(q, cuts, budget, l, s)
    ensures Spread(q, cuts, budget, Taken(l), s)
  {
    forall t | Move(q, s, t) && Uncut(cuts, s, t) ensures Offered(Taken(l), s, t, budget) {
      assert Offered(l, s, t, budget);
    }
  }

  // ---------- the answer ----------

  function WalkCost(p: Path): nat
    requires p != []
  {
    EdgeCount(p[1..])
  }

  // A cheapest walk to the target, passing no state twice, or none within the budget.
  ghost predicate Answers(q: Query, start: State, cuts: Cuts, budget: int, answer: Option<Path>) {
    match answer
    case None => forall p :: WalkToTarget(q, cuts, start, p) ==> WalkCost(p) > budget
    case Some(best) =>
      && WalkToTarget(q, cuts, start, best) && NoDuplicates(best) && WalkCost(best) <= budget
      && forall p :: WalkToTarget(q, cuts, start, p) ==> WalkCost(best) <= WalkCost(p)
  }

  lemma CountPrefix(p: Path, i: nat)
    requires i < |p|
    ensures EdgeCount(p[1..i + 1]) <= WalkCost(p)
    ensures i + 1 < |p| ==> EdgeCount(p[1..i + 2]) == EdgeCount(p[1..i + 1]) + MoveCost(p[i + 1])
  {
    assert p[1..] == p[1..i + 1] + p[i + 1..];
    EdgeCountConcat(p[1..i + 1], p[i + 1..]);
    if i + 1 < |p| {
      assert p[1..i + 2][..i] == p[1..i + 1];
    }
  }

  lemma SpreadMove(q: Query, cuts: Cuts, budget: int, l: Loop, s: State, t: State)
    requires Spread(q, cuts, budget, l, s) && Move(q, s, t) && Uncut(cuts, s, t)
    ensures s in l.distance && Offered(l, s, t, budget)
  {}

  // An affordable walk to the target leaves the states done at one that waits, no further away
  // than the walk is long.
  lemma {:induction false} WalkLeaves(q: Query, start: State, cuts: Cuts, budget: int, l: Loop, p: Path, i: nat)
    returns (x: State)
    requires WalkToTarget(q, cuts, start, p) && WalkCost(p) <= budget && TARGET !in l.done
    requires forall s :: s in l.done ==> Spread(q, cuts, budget, l, s)
    requires i < |p| && p[i] in l.distance && l.distance[p[i]] <= EdgeCount(p[1..i + 1])
    ensures x in l.distance && x !in l.done && l.distance[x] <= WalkCost(p)
    decreases |p| - i
  {
    CountPrefix(p, i);
    if p[i] !in l.done {
      x := p[i];
    } else {
      assert WalkAt(q, cuts, p, i);
      SpreadMove(q, cuts, budget, l, p[i], p[i + 1]);
      CountPrefix(p, i + 1);
      x := WalkLeaves(q, start, cuts, budget, l, p, i + 1);
    }
  }

  lemma WalkSnoc(q: Query, cuts: Cuts, p: Path, s: State)
    requires Walk(q, cuts, p) && Move(q, p[|p| - 1], s) && Uncut(cuts, p[|p| - 1], s)
    ensures Walk(q, cuts, p + [s]) && WalkCost(p + [s]) == WalkCost(p) + MoveCost(s)
  {
    assert (p + [s])[1..] == p[1..] + [s];
    assert (p[1..] + [s])[..|p| - 1] == p[1..];
    forall i | 0 <= i < |p + [s]| - 1 ensures WalkAt(q, cuts, p + [s], i) {
      assert i < |p| - 1 ==> WalkAt(q, cuts, p, i);
    }
  }

  lemma EntersHigher(q: Query, start: State, cuts: Cuts, budget: int, l: Loop, s: State)
    requires s in l.distance && s != start && Entered(q, start, cuts, budget, l, s)
    ensures Rank(l, l.previous[s]) < Rank(l, s)
  {}

  lemma {:induction false} TraceWalks(q: Query, start: State, cuts: Cuts, budget: int, l: Loop, s: State)
    requires AllEntered(q, start, cuts, budget, l) && s in l.distance
    ensures var p := Trace(l, s, start);
            && Walk(q, cuts, p) && p[0] == start && p[|p| - 1] == s && WalkCost(p) == l.distance[s]
    decreases Rank(l, s)
  {
    assert Entered(q, start, cuts, budget, l, s);
    if s == start {
    } else {
      var before := l.previous[s];
      EntersHigher(q, start, cuts, budget, l, s);
      TraceWalks(q, start, cuts, budget, l, before);
      WalkSnoc(q, cuts, Trace(l, before, start), s);
    }
  }

  // Tracing back goes down in rank, so it comes by no state twice.
  lemma {:induction false} TraceClimbs(q: Query, start: State, cuts: Cuts, budget: int, l: Loop, s: State)
    requires AllEntered(q, start, cuts, budget, l) && s in l.distance
    ensures NoDuplicates(Trace(l, s, start))
    ensures forall x :: x in Trace(l, s, start) ==> x in l.distance && Rank(l, x) <= Rank(l, s)
    decreases Rank(l, s)
  {
    assert Entered(q, start, cuts, budget, l, s);
    if s == start {
    } else {
      EntersHigher(q, start, cuts, budget, l, s);
      TraceClimbs(q, start, cuts, budget, l, l.previous[s]);
    }
  }

  lemma SomethingWaits(l: Loop, keys: seq<nat>, s: State)
    requires |keys| == |l.queue| && AllWait(l, keys) && s in l.distance && s !in l.done
    ensures l.queue != []
  {
    assert Waits(l, keys, s);
  }

  lemma {:induction false} RunAnswers(q: Query, start: State, cuts: Cuts, budget: int, l: Loop, keys: seq<nat>, k: nat)
    requires q.graph.Valid() && Inside(q, l) && Ready01(q, start, cuts, budget, l, keys, k)
    ensures Answers(q, start, cuts, budget, Run(q, start, cuts, budget, l))
    decreases |Undone(q, l)|, |l.queue|
  {
    if l.queue == [] {
      forall p | WalkToTarget(q, cuts, start, p) ensures WalkCost(p) > budget {
        if WalkCost(p) <= budget {
          var x := WalkLeaves(q, start, cuts, budget, l, p, 0);
          SomethingWaits(l, keys, x);
        }
      }
    } else if l.queue[0] == TARGET && TARGET !in l.done {
      FrontIsNearest(l, keys, k, TARGET);
      assert Entered(q, start, cuts, budget, l, TARGET);
      TraceWalks(q, start, cuts, budget, l, TARGET);
      TraceClimbs(q, start, cuts, budget, l, TARGET);
      forall p | WalkToTarget(q, cuts, start, p) ensures l.distance[TARGET] <= WalkCost(p) {
        if WalkCost(p) <= budget {
          var x := WalkLeaves(q, start, cuts, budget, l, p, 0);
          FrontIsNearest(l, keys, k, x);
        }
      }
    } else {
      TurnInside(q, cuts, budget, l);
      var keys', k' := TurnKeeps(q, start, cuts, budget, l, keys, k);
      RunAnswers(q, start, cuts, budget, Turn(q, cuts, budget, l), keys', k');
    }
  }

  lemma ShortestAnswers(q: Query, start: State, cuts: Cuts, budget: int)
    requires q.graph.Valid() && IsState(q, start)
    ensures Answers(q, start, cuts, budget, Shortest(q, start, cuts, budget))
  {
    if budget >= 0 {
      var l := Begin(start);
      assert Waits(l, [0], start) by { assert l.queue[0] == start; }
      RunAnswers(q, start, cuts, budget, l, [0], 0);
    }
  }

  // ---------- the code ----------

  // Offer every successor of `state` in turn.
  method OfferAll(l: Loop, state: State, steps: seq<(State, nat)>, budget: int) returns (l': Loop)
    requires state in l.distance
    ensures l' == RelaxAll(l, state, l.distance[state], steps, budget)
  {
    var distance: map<State, nat>, previous, queue := l.distance, l.previous, l.queue;
    var here := distance[state];
    for i := 0 to |steps|
      invariant Loop(distance, previous, l.done, queue) == RelaxAll(l, state, here, steps[..i], budget)
    {
      var (following, cost) := steps[i];
      var total := here + cost;
      assert steps[i] == (steps[i].0, steps[i].1);
      RelaxAllSnoc(l, [], state, here, steps[..i], budget, steps[i].0, steps[i].1);
      assert steps[..i + 1] == steps[..i] + [steps[i]];
      if total > budget || (following in distance && total >= distance[following]) {
        continue;
      }
      distance := distance[following := total];
      previous := previous[following := state];
      queue := if cost == 0 then [following] + queue else queue + [following];
    }
    assert steps[..|steps|] == steps;
    l' := Loop(distance, previous, l.done, queue);
  }

  // One step back along the links.
  method TraceStep(q: Query, start: State, ghost cuts: Cuts, ghost budget: int, l: Loop, path: Path)
    returns (previous: State)
    requires AllEntered(q, start, cuts, budget, l) && path != [] && path[0] in l.distance && path[0] != start
    ensures previous in l.distance && Rank(l, previous) < Rank(l, path[0])
    ensures Trace(l, path[0], start) + path[1..] == Trace(l, previous, start) + path
  {
    assert Entered(q, start, cuts, budget, l, path[0]);
    EntersHigher(q, start, cuts, budget, l, path[0]);
    previous := l.previous[path[0]];
    assert path == [path[0]] + path[1..];
    assert Trace(l, path[0], start) == Trace(l, previous, start) + [path[0]];
  }

  // Walk back along `previous`.
  method PathBack(q: Query, start: State, ghost cuts: Cuts, ghost budget: int, l: Loop) returns (path: Path)
    requires AllEntered(q, start, cuts, budget, l) && TARGET in l.distance
    ensures path == Trace(l, TARGET, start)
  {
    path := [TARGET];
    while path[0] != start
      invariant path != [] && path[0] in l.distance
      invariant Trace(l, TARGET, start) == Trace(l, path[0], start) + path[1..]
      decreases Rank(l, path[0])
    {
      var previous := TraceStep(q, start, cuts, budget, l, path);
      path := [previous] + path;
    }
  }

  method FindShortest(q: Query, start: State, cuts: Cuts, budget: int) returns (answer: Option<Path>)
    requires q.graph.Valid() && IsState(q, start)
    ensures answer == Shortest(q, start, cuts, budget)
    ensures Answers(q, start, cuts, budget, answer)
  {
    ShortestAnswers(q, start, cuts, budget);
    if budget < 0 {
      return None;
    }
    var l := Begin(start);
    ghost var keys, k := [0], 0;
    assert Waits(l, keys, start) by { assert l.queue[0] == start; }
    while l.queue != []
      invariant Inside(q, l) && Ready01(q, start, cuts, budget, l, keys, k)
      invariant Run(q, start, cuts, budget, l) == Shortest(q, start, cuts, budget)
      decreases |Undone(q, l)|, |l.queue|
    {
      var state := l.queue[0];
      if state == TARGET && state !in l.done {
        var path := PathBack(q, start, cuts, budget, l);
        return Some(path);
      }
      TurnInside(q, cuts, budget, l);
      ghost var next := Turn(q, cuts, budget, l);
      keys, k := TurnKeeps(q, start, cuts, budget, l, keys, k);
      l := l.(queue := l.queue[1..]);
      if state !in l.done {
        l := OfferAll(l.(done := l.done + {state}), state, Successors(q, state, cuts), budget);
      }
      assert l == next;
    }
    return None;
  }
}
