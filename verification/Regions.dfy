// Level-synchronous breadth-first search from several terminals at once
// (the first half of `connecting_tree`).
//
// Every reached dataset is owned by the terminal that reached it first; between two regions the
// cheapest boundary relationship seen so far is kept.  The functions here are the state after a
// number of visits; `Valid` is what every visit keeps and `Seen` what a visited relationship has
// brought about.
module Regions {
  import opened Order
  import opened Model

  type Adjacency = map<string, seq<Relationship>>
  type Pair = (string, string)

  datatype Candidate = Candidate(cost: nat, edgeId: string, left: string, right: string, edge: Relationship)

  // A reached dataset: its region, its distance to the region's terminal, and, unless it is a
  // terminal, the dataset and relationship it was reached by.
  datatype Reached = Reached(owner: string, distance: nat, via: Option<(string, Relationship)>)

  datatype Search = Search(
    reached: map<string, Reached>,
    candidates: map<Pair, Candidate>,
    following: seq<string>)

  function Incident(adjacency: Adjacency, node: string): seq<Relationship> {
    if node in adjacency then adjacency[node] else []
  }

  ghost function Edges(adjacency: Adjacency): set<Relationship> {
    set node, e | node in adjacency && e in adjacency[node] :: e
  }

  // What the index builder guarantees: every relationship is listed at both of its datasets and
  // nowhere else, and edge IDs are unique.
  ghost predicate WellFormed(adjacency: Adjacency) {
    && (forall node, e :: node in adjacency && e in adjacency[node] ==> e.Touches(node))
    && (forall e :: e in Edges(adjacency) ==>
          e in Incident(adjacency, e.a.nodeId) && e in Incident(adjacency, e.b.nodeId))
    && (forall e, f :: e in Edges(adjacency) && f in Edges(adjacency) && e.edgeId == f.edgeId ==> e == f)
  }

  function SortedPair(u: string, v: string): Pair {
    if TextLeq(u, v) then (u, v) else (v, u)
  }

  lemma SortedPairSym(u: string, v: string)
    ensures SortedPair(u, v) == SortedPair(v, u)
  {
    TextTotal(u, v);
  }

  function CandidateKey(c: Candidate): Key {
    Tuple([Num(c.cost), Text(c.edgeId), Text(c.left), Text(c.right)])
  }

  predicate NoDearer(c: Candidate, d: Candidate) {
    Leq(CandidateKey(c), CandidateKey(d))
  }

  // ---------- one visit, one level ----------

  function CandidateFor(r: Search, u: string, v: string, e: Relationship): Candidate
    requires u in r.reached && v in r.reached
  {
    var ends := SortedPair(u, v);
    Candidate(r.reached[u].distance + 1 + r.reached[v].distance, e.edgeId, ends.0, ends.1, e)
  }

  function PairFor(r: Search, u: string, v: string): Pair
    requires u in r.reached && v in r.reached
  {
    SortedPair(r.reached[u].owner, r.reached[v].owner)
  }

  // `current` looks across `edge` to `other`.
  function Visit(r: Search, current: string, other: string, edge: Relationship): Search
    requires current in r.reached
  {
    var here := r.reached[current];
    if other !in r.reached then
      r.(reached := r.reached[other := Reached(here.owner, here.distance + 1, Some((current, edge)))],
         following := r.following + [other])
    else if r.reached[other].owner != here.owner then
      var pair := PairFor(r, current, other);
      var candidate := CandidateFor(r, current, other, edge);
      if pair !in r.candidates || !NoDearer(r.candidates[pair], candidate) then
        r.(candidates := r.candidates[pair := candidate])
      else r
    else r
  }

  // A visit is a dataset and one of its relationships; the search only makes visits from datasets
  // it has reached.
  type Step = (string, Relationship)

  function VisitStep(r: Search, v: Step): Search {
    if v.0 in r.reached && v.1.Touches(v.0) then Visit(r, v.0, v.1.Opposite(v.0).nodeId, v.1) else r
  }

  function VisitAll(r: Search, visits: seq<Step>): Search {
    if visits == [] then r
    else VisitStep(VisitAll(r, visits[..|visits| - 1]), visits[|visits| - 1])
  }

  function VisitsOf(node: string, edges: seq<Relationship>): seq<Step> {
    seq(|edges|, i requires 0 <= i < |edges| => (node, edges[i]))
  }

  // The visits of a level, dataset by dataset in frontier order.
  function Visits(adjacency: Adjacency, frontier: seq<string>): seq<Step> {
    if frontier == [] then []
    else
      var last := frontier[|frontier| - 1];
      Visits(adjacency, frontier[..|frontier| - 1]) + VisitsOf(last, Incident(adjacency, last))
  }

  function NextLevel(adjacency: Adjacency, r: Search): Search {
    VisitAll(r.(following := []), Visits(adjacency, r.following))
  }

  function Terminals(terminals: seq<string>): (m: map<string, Reached>)
    ensures forall t :: t in m <==> t in terminals
    ensures forall t :: t in terminals ==> m[t] == Reached(t, 0, None)
  {
    if terminals == [] then map[]
    else
      var last := terminals[|terminals| - 1];
      Terminals(terminals[..|terminals| - 1])[last := Reached(last, 0, None)]
  }

  // The search after `n` levels.
  function After(adjacency: Adjacency, terminals: seq<string>, n: nat): Search
    decreases n
  {
    if n == 0 then Search(Terminals(terminals), map[], terminals)
    else NextLevel(adjacency, After(adjacency, terminals, n - 1))
  }

  lemma VisitsOfMembers(node: string, edges: seq<Relationship>)
    ensures forall u, e :: (u, e) in VisitsOf(node, edges) <==> u == node && e in edges
  {
    var visits := VisitsOf(node, edges);
    forall e | e in edges ensures (node, e) in visits {
      var i :| 0 <= i < |edges| && edges[i] == e;
      assert visits[i] == (node, e);
    }
  }

  lemma {:induction false} VisitsMembers(adjacency: Adjacency, frontier: seq<string>)
    ensures forall u, e :: (u, e) in Visits(adjacency, frontier) <==> u in frontier && e in Incident(adjacency, u)
  {
    if frontier == [] {
    } else {
      var init, last := frontier[..|frontier| - 1], frontier[|frontier| - 1];
      VisitsMembers(adjacency, init);
      VisitsOfMembers(last, Incident(adjacency, last));
    }
  }

  // ---------- what every visit keeps ----------

  // `x` hangs off `p` through `e`.
  ghost predicate ReachedFrom(adjacency: Adjacency, r: Search, x: string, p: string, e: Relationship) {
    && x in r.reached && p in r.reached
    && e in Edges(adjacency) && e.Joins(p, x)
    && r.reached[x].distance == r.reached[p].distance + 1
    && r.reached[x].owner == r.reached[p].owner
  }

  ghost predicate Rooted(adjacency: Adjacency, terminals: seq<string>, r: Search, x: string)
    requires x in r.reached
  {
    && r.reached[x].owner in terminals
    && (x in terminals ==> r.reached[x] == Reached(x, 0, None))
    && (x !in terminals ==>
          && r.reached[x].via.Some?
          && ReachedFrom(adjacency, r, x, r.reached[x].via.value.0, r.reached[x].via.value.1))
  }

  ghost predicate IsBoundary(adjacency: Adjacency, r: Search, pair: Pair, c: Candidate) {
    && c.left in r.reached && c.right in r.reached
    && c.edge in Edges(adjacency) && c.edge.Joins(c.left, c.right)
    && c == CandidateFor(r, c.left, c.right, c.edge)
    && r.reached[c.left].owner != r.reached[c.right].owner
    && pair == PairFor(r, c.left, c.right)
  }

  ghost predicate AllRooted(adjacency: Adjacency, terminals: seq<string>, r: Search) {
    (forall t :: t in terminals ==> t in r.reached) && forall x :: x in r.reached ==> Rooted(adjacency, terminals, r, x)
  }

  // The search has got as far as `depth`, `following` are those just reached, and every candidate
  // has an end closer than that.
  ghost predicate Layered(r: Search, depth: nat) {
    && (forall x :: x in r.reached ==> r.reached[x].distance <= depth)
    && (forall x :: x in r.following <==> x in r.reached && r.reached[x].distance == depth)
    && (forall p :: p in r.candidates ==> r.candidates[p].cost <= 2 * depth)
  }

  ghost predicate AllBoundaries(adjacency: Adjacency, r: Search) {
    forall pair :: pair in r.candidates ==> IsBoundary(adjacency, r, pair, r.candidates[pair])
  }

  ghost predicate Valid(adjacency: Adjacency, terminals: seq<string>, r: Search, depth: nat) {
    AllRooted(adjacency, terminals, r) && Layered(r, depth) && AllBoundaries(adjacency, r)
  }

  // A visited relationship leads to a reached dataset and, across a border, has been offered as
  // that border's candidate.
  ghost predicate Seen(r: Search, u: string, v: string, e: Relationship) {
    && u in r.reached && v in r.reached
    && r.reached[v].distance <= r.reached[u].distance + 1
    && (r.reached[u].owner != r.reached[v].owner ==>
          && PairFor(r, u, v) in r.candidates
          && NoDearer(r.candidates[PairFor(r, u, v)], CandidateFor(r, u, v, e)))
  }

  ghost predicate Settled(adjacency: Adjacency, r: Search, depth: nat) {
    forall u, e :: u in r.reached && r.reached[u].distance < depth && e in Incident(adjacency, u) ==>
      e.Touches(u) && Seen(r, u, e.Opposite(u).nodeId, e)
  }

  // Nothing is forgotten and candidates only improve.
  ghost predicate Extends(r: Search, r': Search) {
    && (forall x :: x in r.reached ==> x in r'.reached && r'.reached[x] == r.reached[x])
    && (forall p :: p in r.candidates ==> p in r'.candidates && NoDearer(r'.candidates[p], r.candidates[p]))
  }

  lemma NoDearerOrder(c: Candidate, d: Candidate, e: Candidate)
    ensures NoDearer(c, c) && (NoDearer(c, d) || NoDearer(d, c))
    ensures NoDearer(c, d) && NoDearer(d, e) ==> NoDearer(c, e)
  {
    Total(CandidateKey(c), CandidateKey(c));
    Total(CandidateKey(c), CandidateKey(d));
    if NoDearer(c, d) && NoDearer(d, e) {
      Transitive(CandidateKey(c), CandidateKey(d), CandidateKey(e));
    }
  }

  lemma ExtendsTrans(r: Search, s: Search, t: Search)
    requires Extends(r, s) && Extends(s, t)
    ensures Extends(r, t)
  {
    forall p | p in r.candidates ensures p in t.candidates && NoDearer(t.candidates[p], r.candidates[p]) {
      NoDearerOrder(t.candidates[p], s.candidates[p], r.candidates[p]);
    }
  }

  lemma ExtendsRefl(r: Search)
    ensures Extends(r, r)
  {
    forall p | p in r.candidates ensures NoDearer(r.candidates[p], r.candidates[p]) {
      NoDearerOrder(r.candidates[p], r.candidates[p], r.candidates[p]);
    }
  }

  lemma SeenStays(r: Search, r': Search, u: string, v: string, e: Relationship)
    requires Extends(r, r') && Seen(r, u, v, e)
    ensures Seen(r', u, v, e)
  {
    if r.reached[u].owner != r.reached[v].owner {
      var p := PairFor(r, u, v);
      NoDearerOrder(r'.candidates[p], r.candidates[p], CandidateFor(r, u, v, e));
    }
  }

  lemma CandidateIsBoundary(adjacency: Adjacency, r: Search, u: string, v: string, e: Relationship)
    requires u in r.reached && v in r.reached && e in Edges(adjacency) && e.Joins(u, v)
    requires r.reached[u].owner != r.reached[v].owner
    ensures IsBoundary(adjacency, r, PairFor(r, u, v), CandidateFor(r, u, v, e))
  {
    SortedPairSym(u, v);
    SortedPairSym(r.reached[u].owner, r.reached[v].owner);
  }

  lemma VisitExtends(r: Search, u: string, v: string, e: Relationship)
    requires u in r.reached
    ensures Extends(r, Visit(r, u, v, e))
  {
    ExtendsRefl(r);
    if v in r.reached && r.reached[v].owner != r.reached[u].owner && PairFor(r, u, v) in r.candidates {
      NoDearerOrder(CandidateFor(r, u, v, e), r.candidates[PairFor(r, u, v)], CandidateFor(r, u, v, e));
    }
  }

  lemma VisitSees(r: Search, u: string, v: string, e: Relationship)
    requires u in r.reached && forall x :: x in r.reached ==> r.reached[x].distance <= r.reached[u].distance + 1
    ensures Seen(Visit(r, u, v, e), u, v, e)
  {
    if v in r.reached && r.reached[v].owner != r.reached[u].owner {
      NoDearerOrder(CandidateFor(r, u, v, e), CandidateFor(r, u, v, e), CandidateFor(r, u, v, e));
    }
  }

  lemma RootedStays(adjacency: Adjacency, terminals: seq<string>, r: Search, r': Search, x: string)
    requires Extends(r, r') && x in r.reached && Rooted(adjacency, terminals, r, x)
    ensures Rooted(adjacency, terminals, r', x)
  {}

  lemma VisitRooted(adjacency: Adjacency, terminals: seq<string>, r: Search, u: string, v: string, e: Relationship)
    requires u in r.reached && e in Edges(adjacency) && e.Joins(u, v)
    requires AllRooted(adjacency, terminals, r)
    ensures AllRooted(adjacency, terminals, Visit(r, u, v, e))
  {
    var r' := Visit(r, u, v, e);
    VisitExtends(r, u, v, e);
    forall x | x in r'.reached ensures Rooted(adjacency, terminals, r', x) {
      if x in r.reached {
        RootedStays(adjacency, terminals, r, r', x);
      } else {
        assert Rooted(adjacency, terminals, r, u);
      }
    }
  }

  lemma BoundaryStays(adjacency: Adjacency, r: Search, r': Search, pair: Pair, c: Candidate)
    requires Extends(r, r') && IsBoundary(adjacency, r, pair, c)
    ensures IsBoundary(adjacency, r', pair, c)
  {}

  lemma VisitBoundaries(adjacency: Adjacency, r: Search, u: string, v: string, e: Relationship)
    requires u in r.reached && e in Edges(adjacency) && e.Joins(u, v)
    requires AllBoundaries(adjacency, r)
    ensures AllBoundaries(adjacency, Visit(r, u, v, e))
  {
    var r' := Visit(r, u, v, e);
    VisitExtends(r, u, v, e);
    if v in r.reached && r.reached[u].owner != r.reached[v].owner {
      CandidateIsBoundary(adjacency, r, u, v, e);
      BoundaryStays(adjacency, r, r', PairFor(r, u, v), CandidateFor(r, u, v, e));
    }
    forall q | q in r'.candidates ensures IsBoundary(adjacency, r', q, r'.candidates[q]) {
      if q in r.candidates {
        BoundaryStays(adjacency, r, r', q, r.candidates[q]);
      }
    }
  }

  lemma VisitLayered(r: Search, u: string, v: string, e: Relationship)
    requires u in r.reached && Layered(r, r.reached[u].distance + 1)
    ensures Layered(Visit(r, u, v, e), r.reached[u].distance + 1)
  {}

  lemma VisitReachesOnly(r: Search, u: string, v: string, e: Relationship)
    requires u in r.reached
    ensures ReachesOnly(r, Visit(r, u, v, e), r.reached[u].distance + 1)
  {}

  lemma VisitKeeps(adjacency: Adjacency, terminals: seq<string>, r: Search, u: string, v: string, e: Relationship)
    requires u in r.reached && e in Edges(adjacency) && e.Joins(u, v)
    requires Valid(adjacency, terminals, r, r.reached[u].distance + 1)
    ensures Valid(adjacency, terminals, Visit(r, u, v, e), r.reached[u].distance + 1)
  {
    VisitRooted(adjacency, terminals, r, u, v, e);
    VisitLayered(r, u, v, e);
    VisitBoundaries(adjacency, r, u, v, e);
  }

  // ---------- whole levels ----------

  ghost predicate StepFrom(adjacency: Adjacency, r: Search, v: Step, level: nat) {
    v.0 in r.reached && r.reached[v.0].distance == level && v.1 in Edges(adjacency) && v.1.Touches(v.0)
  }

  ghost predicate StepsFrom(adjacency: Adjacency, r: Search, visits: seq<Step>, level: nat) {
    forall v :: v in visits ==> StepFrom(adjacency, r, v, level)
  }

  ghost predicate AllSeen(r: Search, visits: seq<Step>) {
    forall v :: v in visits ==> v.1.Touches(v.0) && Seen(r, v.0, v.1.Opposite(v.0).nodeId, v.1)
  }

  ghost predicate ReachesOnly(r: Search, r': Search, distance: nat) {
    forall x :: x in r'.reached && x !in r.reached ==> r'.reached[x].distance == distance
  }

  lemma AllSeenStays(r: Search, r': Search, visits: seq<Step>)
    requires Extends(r, r') && AllSeen(r, visits)
    ensures AllSeen(r', visits)
  {
    forall w | w in visits ensures w.1.Touches(w.0) && Seen(r', w.0, w.1.Opposite(w.0).nodeId, w.1) {
      SeenStays(r, r', w.0, w.1.Opposite(w.0).nodeId, w.1);
    }
  }

  // What the visits of a level lead from `r` to.
  ghost predicate LeadsTo(adjacency: Adjacency, terminals: seq<string>, r: Search, r': Search, visits: seq<Step>,
                          level: nat) {
    Valid(adjacency, terminals, r', level + 1) && Extends(r, r') && ReachesOnly(r, r', level + 1) && AllSeen(r', visits)
  }

  lemma LeadsToTrans(adjacency: Adjacency, terminals: seq<string>, r: Search, s: Search, t: Search, first: seq<Step>,
                     second: seq<Step>, level: nat)
    requires LeadsTo(adjacency, terminals, r, s, first, level)
    requires LeadsTo(adjacency, terminals, s, t, second, level)
    ensures LeadsTo(adjacency, terminals, r, t, first + second, level)
  {
    ExtendsTrans(r, s, t);
    AllSeenStays(s, t, first);
  }

  lemma StepLeads(adjacency: Adjacency, terminals: seq<string>, r: Search, v: Step, level: nat)
    requires Valid(adjacency, terminals, r, level + 1) && StepFrom(adjacency, r, v, level)
    ensures LeadsTo(adjacency, terminals, r, VisitStep(r, v), [v], level)
  {
    var u, other, e := v.0, v.1.Opposite(v.0).nodeId, v.1;
    var r' := Visit(r, u, other, e);
    assert e.Joins(u, other);
    assert Valid(adjacency, terminals, r', level + 1) by { VisitKeeps(adjacency, terminals, r, u, other, e); }
    assert Extends(r, r') by { VisitExtends(r, u, other, e); }
    assert Seen(r', u, other, e) by { VisitSees(r, u, other, e); }
    assert ReachesOnly(r, r', level + 1) by { VisitReachesOnly(r, u, other, e); }
  }

  lemma LeadsOn(adjacency: Adjacency, terminals: seq<string>, r: Search, mid: Search, init: seq<Step>, last: Step,
                level: nat)
    requires Valid(adjacency, terminals, r, level + 1) && LeadsTo(adjacency, terminals, r, mid, init, level)
    requires StepFrom(adjacency, r, last, level)
    ensures LeadsTo(adjacency, terminals, r, VisitStep(mid, last), init + [last], level)
  {
    assert StepFrom(adjacency, mid, last, level);
    StepLeads(adjacency, terminals, mid, last, level);
    LeadsToTrans(adjacency, terminals, r, mid, VisitStep(mid, last), init, [last], level);
  }

  lemma {:induction false} VisitAllLeads(adjacency: Adjacency, terminals: seq<string>, r: Search, visits: seq<Step>,
                                         level: nat)
    requires Valid(adjacency, terminals, r, level + 1) && StepsFrom(adjacency, r, visits, level)
    ensures LeadsTo(adjacency, terminals, r, VisitAll(r, visits), visits, level)
    decreases |visits|
  {
    if visits == [] {
      ExtendsRefl(r);
    } else {
      var init, last := visits[..|visits| - 1], visits[|visits| - 1];
      VisitAllLeads(adjacency, terminals, r, init, level);
      LeadsOn(adjacency, terminals, r, VisitAll(r, init), init, last, level);
      LastApart(visits);
    }
  }

  lemma BegunKeeps(adjacency: Adjacency, terminals: seq<string>, r: Search, level: nat)
    requires Valid(adjacency, terminals, r, level)
    ensures Valid(adjacency, terminals, r.(following := []), level + 1) && Extends(r, r.(following := []))
  {
    var begun := r.(following := []);
    ExtendsRefl(r);
    forall x | x in begun.reached ensures Rooted(adjacency, terminals, begun, x) {
      RootedStays(adjacency, terminals, r, begun, x);
    }
    forall p | p in begun.candidates ensures IsBoundary(adjacency, begun, p, begun.candidates[p]) {
      BoundaryStays(adjacency, r, begun, p, r.candidates[p]);
    }
  }

  lemma LevelKeeps(adjacency: Adjacency, terminals: seq<string>, r: Search, level: nat)
    requires WellFormed(adjacency) && Valid(adjacency, terminals, r, level) && Settled(adjacency, r, level)
    ensures Valid(adjacency, terminals, NextLevel(adjacency, r), level + 1)
    ensures Settled(adjacency, NextLevel(adjacency, r), level + 1)
    ensures Extends(r, NextLevel(adjacency, r)) && ReachesOnly(r, NextLevel(adjacency, r), level + 1)
  {
    var begun, visits := r.(following := []), Visits(adjacency, r.following);
    BegunKeeps(adjacency, terminals, r, level);
    VisitsMembers(adjacency, r.following);
    VisitAllLeads(adjacency, terminals, begun, visits, level);
    var r' := VisitAll(begun, visits);
    ExtendsTrans(r, begun, r');
    forall u, e | u in r'.reached && r'.reached[u].distance < level + 1 && e in Incident(adjacency, u)
      ensures e.Touches(u) && Seen(r', u, e.Opposite(u).nodeId, e)
    {
      if r.reached[u].distance < level {
        SeenStays(r, r', u, e.Opposite(u).nodeId, e);
      } else {
        assert (u, e) in visits;
      }
    }
  }

  lemma {:induction false} AfterKeeps(adjacency: Adjacency, terminals: seq<string>, n: nat)
    requires WellFormed(adjacency)
    ensures Valid(adjacency, terminals, After(adjacency, terminals, n), n)
    ensures Settled(adjacency, After(adjacency, terminals, n), n)
    decreases n
  {
    if n == 0 {
    } else {
      AfterKeeps(adjacency, terminals, n - 1);
      LevelKeeps(adjacency, terminals, After(adjacency, terminals, n - 1), n - 1);
    }
  }

  lemma {:induction false} AfterExtends(adjacency: Adjacency, terminals: seq<string>, m: nat, n: nat)
    requires WellFormed(adjacency) && m <= n
    ensures Extends(After(adjacency, terminals, m), After(adjacency, terminals, n))
    decreases n
  {
    var first, last := After(adjacency, terminals, m), After(adjacency, terminals, n);
    if m == n {
      ExtendsRefl(first);
    } else {
      var mid := After(adjacency, terminals, n - 1);
      AfterExtends(adjacency, terminals, m, n - 1);
      AfterKeeps(adjacency, terminals, n - 1);
      LevelKeeps(adjacency, terminals, mid, n - 1);
      ExtendsTrans(first, mid, last);
    }
  }

  // What is reached later is further away.
  lemma AfterEarlier(adjacency: Adjacency, terminals: seq<string>, n: nat, x: string)
    requires WellFormed(adjacency)
    requires x in After(adjacency, terminals, n + 1).reached
    requires After(adjacency, terminals, n + 1).reached[x].distance <= n
    ensures x in After(adjacency, terminals, n).reached
    ensures After(adjacency, terminals, n).reached[x] == After(adjacency, terminals, n + 1).reached[x]
  {
    AfterKeeps(adjacency, terminals, n);
    LevelKeeps(adjacency, terminals, After(adjacency, terminals, n), n);
  }

  lemma {:induction false} AfterReaches(adjacency: Adjacency, terminals: seq<string>, m: nat, n: nat, x: string)
    requires WellFormed(adjacency) && m <= n
    requires x in After(adjacency, terminals, n).reached && After(adjacency, terminals, n).reached[x].distance <= m
    ensures x in After(adjacency, terminals, m).reached
    decreases n
  {
    if m >= n {
    } else {
      AfterEarlier(adjacency, terminals, n - 1, x);
      AfterReaches(adjacency, terminals, m, n - 1, x);
    }
  }
}
