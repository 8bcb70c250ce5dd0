// Joining along a path: with only 1:1 and many:1 edges allowed, rows never multiply.
module Joins {
  import opened Model
  import opened Sets
  import opened Derivation
  import opened PathGraphs
  import opened Routes
  import opened EdgePaths
  import opened DerivedGraph
  import opened DataSemantics

  // One record of the source dataset and one for every edge, by position in their datasets.
  type Row = seq<nat>

  ghost predicate FitsAll(w: World, nodes: seq<Dataset>) {
    forall o :: o in Occurrences(nodes) ==> DataSemantics.Fits(w, o)
  }

  function RecordsOf(w: World, g: PathGraph, d: nat): seq<Record> {
    if d < |g.keys| then w.records(g.keys[d].nodeId) else []
  }

  // Records `i` and `j` hold the same value of the definitions numbered `a` and `b`.
  predicate Joined(w: World, g: PathGraph, a: nat, b: nat, i: nat, j: nat) {
    && a < |g.keys| && b < |g.keys| && i < |RecordsOf(w, g, a)| && j < |RecordsOf(w, g, b)|
    && g.keys[a] in RecordsOf(w, g, a)[i] && g.keys[b] in RecordsOf(w, g, b)[j]
    && RecordsOf(w, g, a)[i][g.keys[a]] == RecordsOf(w, g, b)[j][g.keys[b]]
  }

  function StartRows(w: World, q: Query): set<Row> {
    set i | i in FirstNumbers(|w.records(q.source)|) :: [i]
  }

  // Every row continued by every record it joins across one edge.
  function NextRows(w: World, g: PathGraph, rows: set<Row>, a: nat, b: nat): set<Row> {
    set row, j | row in rows && j in FirstNumbers(|RecordsOf(w, g, b)|)
                 && row != [] && Joined(w, g, a, b, row[|row| - 1], j) :: row + [j]
  }

  // Inner join of the datasets along the edges, starting from every source record.
  function JoinRows(w: World, q: Query, edges: Edges): set<Row> {
    if edges == [] then StartRows(w, q)
    else NextRows(w, q.graph, JoinRows(w, q, edges[..|edges| - 1]), edges[|edges| - 1].0, edges[|edges| - 1].1)
  }

  lemma JoinedIsMatch(w: World, g: PathGraph, s: Occurrence, t: Occurrence, a: nat, b: nat, i: nat, j: nat)
    requires a < |g.keys| && b < |g.keys| && EndpointOf(s) == g.keys[a] && EndpointOf(t) == g.keys[b]
    ensures Joined(w, g, a, b, i, j) <==> Match(w, s, t, i, j)
  {
    if Joined(w, g, a, b, i, j) {
      var v := RecordsOf(w, g, a)[i][g.keys[a]];
      assert Holds(w, s, i, v) && Holds(w, t, j, v);
    }
  }

  // Only `1:1` and `many:1` edges may be taken.
  predicate OnlyToOne(q: Query) {
    q.allowed.Some? && q.allowed.value <= {OneToOne, ManyToOne}
  }

  // What a to-one edge joins matches at most once.
  lemma ToOneMatches(w: World, g: PathGraph, nodes: seq<Dataset>, a: nat, e: OutEdge)
    requires DerivedFrom(g, nodes) && FitsAll(w, nodes) && e in g.From(a) && ToOne(e.multiplicity)
    ensures JoinsAtMostOne(w, g, a, e.target)
  {
    var s, t := EdgeJoins(g, nodes, a, e);
    ClaimsHold(w, s, t);
    MatchesJoinOne(w, g, s, t, a, e.target);
  }

  lemma LinkedToOne(q: Query, a: nat, b: nat) returns (e: OutEdge)
    requires OnlyToOne(q) && Linked(q, a, b)
    ensures e in q.graph.From(a) && e.target == b && ToOne(e.multiplicity)
  {
    e :| e in q.graph.From(a) && e.target == b && Permits(q, e.multiplicity);
    assert e.multiplicity in {OneToOne, ManyToOne};
  }

  // Along an allowed edge, a record joins at most one other.
  lemma StepJoinsOne(w: World, q: Query, nodes: seq<Dataset>, a: nat, b: nat)
    requires DerivedFrom(q.graph, nodes) && FitsAll(w, nodes) && OnlyToOne(q) && Linked(q, a, b)
    ensures JoinsAtMostOne(w, q.graph, a, b)
  {
    var e := LinkedToOne(q, a, b);
    ToOneMatches(w, q.graph, nodes, a, e);
  }

  lemma MatchesJoinOne(w: World, g: PathGraph, s: Occurrence, t: Occurrence, a: nat, b: nat)
    requires a < |g.keys| && b < |g.keys| && EndpointOf(s) == g.keys[a] && EndpointOf(t) == g.keys[b]
    requires AtMostOneMatch(w, s, t)
    ensures JoinsAtMostOne(w, g, a, b)
  {
    forall i: nat, j: nat, k: nat | Joined(w, g, a, b, i, j) && Joined(w, g, a, b, i, k) ensures j == k {
      AtMostOneJoined(w, g, s, t, a, b, i, j, k);
    }
  }

  lemma AtMostOneJoined(w: World, g: PathGraph, s: Occurrence, t: Occurrence, a: nat, b: nat, i: nat, j: nat, k: nat)
    requires a < |g.keys| && b < |g.keys| && EndpointOf(s) == g.keys[a] && EndpointOf(t) == g.keys[b]
    requires AtMostOneMatch(w, s, t) && Joined(w, g, a, b, i, j) && Joined(w, g, a, b, i, k)
    ensures j == k
  {
    JoinedIsMatch(w, g, s, t, a, b, i, j);
    JoinedIsMatch(w, g, s, t, a, b, i, k);
  }

  ghost predicate JoinsAtMostOne(w: World, g: PathGraph, a: nat, b: nat) {
    forall i: nat, j: nat, k: nat :: Joined(w, g, a, b, i, j) && Joined(w, g, a, b, i, k) ==> j == k
  }

  ghost predicate ToOneAlong(w: World, g: PathGraph, edges: Edges) {
    forall n :: 0 <= n < |edges| ==> JoinsAtMostOne(w, g, edges[n].0, edges[n].1)
  }

  ghost predicate JoinedAt(w: World, g: PathGraph, edges: Edges, row: Row, n: nat)
    requires n < |edges| && |row| == |edges| + 1
  {
    Joined(w, g, edges[n].0, edges[n].1, row[n], row[n + 1])
  }

  // A source record followed by records each joined to the one before.
  ghost predicate IsRow(w: World, q: Query, edges: Edges, row: Row) {
    && |row| == |edges| + 1 && row[0] < |w.records(q.source)|
    && forall n: nat {:trigger JoinedAt(w, q.graph, edges, row, n)} :: n < |edges| ==>
           JoinedAt(w, q.graph, edges, row, n)
  }

  lemma NextRowSplits(w: World, g: PathGraph, rows: set<Row>, a: nat, b: nat, row: Row) returns (init: Row, j: nat)
    requires row in NextRows(w, g, rows, a, b)
    ensures init in rows && init != [] && row == init + [j] && Joined(w, g, a, b, init[|init| - 1], j)
  {
    init, j :| init in rows && j in FirstNumbers(|RecordsOf(w, g, b)|)
      && init != [] && Joined(w, g, a, b, init[|init| - 1], j) && row == init + [j];
  }

  lemma NextRowJoins(w: World, g: PathGraph, rows: set<Row>, a: nat, b: nat, init: Row, j: nat)
    requires init in rows && init != [] && Joined(w, g, a, b, init[|init| - 1], j)
    ensures init + [j] in NextRows(w, g, rows, a, b)
  {
    assert j in FirstNumbers(|RecordsOf(w, g, b)|);
  }

  lemma RowSnoc(w: World, q: Query, init: Edges, e: (nat, nat), row: Row, j: nat)
    requires |row| == |init| + 1
    ensures IsRow(w, q, init + [e], row + [j]) <==>
              IsRow(w, q, init, row) && Joined(w, q.graph, e.0, e.1, row[|init|], j)
  {
    var edges, more := init + [e], row + [j];
    assert JoinedAt(w, q.graph, edges, more, |init|) <==> Joined(w, q.graph, e.0, e.1, row[|init|], j);
    forall n: nat | n < |init| ensures JoinedAt(w, q.graph, edges, more, n) <==> JoinedAt(w, q.graph, init, row, n) {
      assert edges[n] == init[n] && more[n] == row[n] && more[n + 1] == row[n + 1];
    }
  }

  lemma StartRow(w: World, q: Query, row: Row)
    ensures row in StartRows(w, q) <==> IsRow(w, q, [], row)
  {
    if IsRow(w, q, [], row) {
      assert row == [row[0]] && row[0] in FirstNumbers(|w.records(q.source)|);
    }
  }

  // The join holds exactly the rows.
  lemma {:induction false} JoinRowsExactly(w: World, q: Query, edges: Edges, row: Row)
    ensures row in JoinRows(w, q, edges) <==> IsRow(w, q, edges, row)
    decreases |edges|
  {
    if edges == [] {
      StartRow(w, q, row);
    } else {
      var init, e := edges[..|edges| - 1], edges[|edges| - 1];
      var rows := JoinRows(w, q, init);
      assert edges == init + [e] && JoinRows(w, q, edges) == NextRows(w, q.graph, rows, e.0, e.1);
      if row in NextRows(w, q.graph, rows, e.0, e.1) {
        var r, j := NextRowSplits(w, q.graph, rows, e.0, e.1, row);
        JoinRowsExactly(w, q, init, r);
        RowSnoc(w, q, init, e, r, j);
      }
      if IsRow(w, q, edges, row) {
        var r, j := row[..|edges|], row[|edges|];
        assert row == r + [j];
        RowSnoc(w, q, init, e, r, j);
        JoinRowsExactly(w, q, init, r);
        NextRowJoins(w, q.graph, rows, e.0, e.1, r, j);
      }
    }
  }

  // Each source record appears in at most one row.
  lemma {:induction false} OneRowEach(w: World, q: Query, edges: Edges, r: Row, s: Row, n: nat)
    requires ToOneAlong(w, q.graph, edges) && IsRow(w, q, edges, r) && IsRow(w, q, edges, s) && r[0] == s[0]
    requires n <= |edges|
    ensures r[..n + 1] == s[..n + 1]
    decreases n
  {
    if n == 0 {
    } else {
      OneRowEach(w, q, edges, r, s, n - 1);
      assert r[n - 1] == r[..n][n - 1] && s[n - 1] == s[..n][n - 1];
      assert JoinsAtMostOne(w, q.graph, edges[n - 1].0, edges[n - 1].1);
      assert JoinedAt(w, q.graph, edges, r, n - 1) && JoinedAt(w, q.graph, edges, s, n - 1);
      assert r[..n + 1] == r[..n] + [r[n]] && s[..n + 1] == s[..n] + [s[n]];
    }
  }

  function FirstRecords(rows: set<Row>): set<nat> {
    set row | row in rows && row != [] :: row[0]
  }

  lemma AllToOne(w: World, q: Query, nodes: seq<Dataset>, edges: Edges)
    requires DerivedFrom(q.graph, nodes) && FitsAll(w, nodes) && OnlyToOne(q) && LegalEdges(q, edges)
    ensures ToOneAlong(w, q.graph, edges)
  {
    forall n | 0 <= n < |edges| ensures JoinsAtMostOne(w, q.graph, edges[n].0, edges[n].1) {
      assert LegalAt(q, edges, n);
      StepJoinsOne(w, q, nodes, edges[n].0, edges[n].1);
    }
  }

  // The join has no more rows than the source dataset has records.
  lemma NoFanOut(w: World, q: Query, nodes: seq<Dataset>, edges: Edges)
    requires DerivedFrom(q.graph, nodes) && FitsAll(w, nodes) && OnlyToOne(q) && LegalEdges(q, edges)
    ensures forall r, s :: IsRow(w, q, edges, r) && IsRow(w, q, edges, s) && r[0] == s[0] ==> r == s
    ensures |JoinRows(w, q, edges)| <= |w.records(q.source)|
  {
    AllToOne(w, q, nodes, edges);
    forall r, s | IsRow(w, q, edges, r) && IsRow(w, q, edges, s) && r[0] == s[0] ensures r == s {
      OneRowEach(w, q, edges, r, s, |edges|);
      assert r[..|edges| + 1] == r && s[..|edges| + 1] == s;
    }
    RowsAreRows(w, q, edges);
    RowCount(JoinRows(w, q, edges), |w.records(q.source)|);
  }

  lemma RowsAreRows(w: World, q: Query, edges: Edges)
    ensures forall r :: r in JoinRows(w, q, edges) <==> IsRow(w, q, edges, r)
  {
    forall r ensures r in JoinRows(w, q, edges) <==> IsRow(w, q, edges, r) {
      JoinRowsExactly(w, q, edges, r);
    }
  }

  lemma RowCount(rows: set<Row>, n: nat)
    requires forall r :: r in rows ==> r != [] && r[0] < n
    requires forall r, s :: r in rows && s in rows && r[0] == s[0] ==> r == s
    ensures |rows| == |FirstRecords(rows)| <= n
  {
    FirstsDistinct(rows);
    SubsetSize(FirstRecords(rows), FirstNumbers(n));
  }

  lemma {:induction false} FirstsDistinct(rows: set<Row>)
    requires forall r :: r in rows ==> r != []
    requires forall r, s :: r in rows && s in rows && r[0] == s[0] ==> r == s
    ensures |rows| == |FirstRecords(rows)|
  {
    if rows == {} {
    } else {
      var r :| r in rows;
      FirstsDistinct(rows - {r});
      assert FirstRecords(rows) == FirstRecords(rows - {r}) + {r[0]};
    }
  }

  // ---------- no record lost ----------

  ghost predicate IsAlways(os: set<Occurrence>, e: Endpoint, f: Endpoint) {
    exists s, t ::
        s in os && t in os && EndpointOf(s) == e && EndpointOf(t) == f
        && DerivedExistence(s.definition, t.definition) == Always
  }

  ghost predicate AlwaysAt(q: Query, nodes: seq<Dataset>, edges: Edges, n: nat)
    requires n < |edges|
  {
    && edges[n].0 < |q.graph.keys| && edges[n].1 < |q.graph.keys|
    && IsAlways(Occurrences(nodes), q.graph.keys[edges[n].0], q.graph.keys[edges[n].1])
  }

  // Every edge of the path claims a match for every record.
  ghost predicate AllAlways(q: Query, nodes: seq<Dataset>, edges: Edges) {
    forall n {:trigger AlwaysAt(q, nodes, edges, n)} :: 0 <= n < |edges| ==> AlwaysAt(q, nodes, edges, n)
  }

  lemma StepMatches(w: World, q: Query, nodes: seq<Dataset>, edges: Edges, n: nat, i: nat) returns (j: nat)
    requires DerivedFrom(q.graph, nodes) && FitsAll(w, nodes) && n < |edges|
    requires Linked(q, edges[n].0, edges[n].1) && AlwaysAt(q, nodes, edges, n)
    requires i < |RecordsOf(w, q.graph, edges[n].0)|
    ensures Joined(w, q.graph, edges[n].0, edges[n].1, i, j)
  {
    var (a, b) := edges[n];
    var e :| e in q.graph.From(a) && e.target == b && Permits(q, e.multiplicity);
    var s', t' := EdgeJoins(q.graph, nodes, a, e);
    var os := Occurrences(nodes);
    var s, t :| s in os && t in os && EndpointOf(s) == q.graph.keys[a] && EndpointOf(t) == q.graph.keys[b]
      && DerivedExistence(s.definition, t.definition) == Always;
    ClaimsHold(w, s, t);
    assert IsRecord(w, s, i) && IsMatched(w, s, t, i);
    j :| Match(w, s, t, i, j);
    JoinedIsMatch(w, q.graph, s, t, a, b, i, j);
  }

  // Every record of the one dataset joins some record of the other.
  ghost predicate JoinsSome(w: World, g: PathGraph, a: nat, b: nat) {
    forall i: nat :: i < |RecordsOf(w, g, a)| ==> HasJoined(w, g, a, b, i)
  }

  ghost predicate HasJoined(w: World, g: PathGraph, a: nat, b: nat, i: nat) {
    exists j: nat :: Joined(w, g, a, b, i, j)
  }

  // Along the path, the records arrived at are those left from, and each joins on.
  ghost predicate JoinsOn(w: World, q: Query, edges: Edges, n: nat)
    requires n < |edges|
  {
    && JoinsSome(w, q.graph, edges[n].0, edges[n].1)
    && |RecordsOf(w, q.graph, edges[n].0)| ==
         if n == 0 then |w.records(q.source)| else |RecordsOf(w, q.graph, edges[n - 1].1)|
  }

  lemma AllJoinOn(w: World, q: Query, nodes: seq<Dataset>, edges: Edges, n: nat)
    requires DerivedFrom(q.graph, nodes) && FitsAll(w, nodes) && LegalEdges(q, edges) && AllAlways(q, nodes, edges)
    requires n < |edges|
    ensures JoinsOn(w, q, edges, n)
  {
    assert LegalAt(q, edges, n) && AlwaysAt(q, nodes, edges, n);
    forall i: nat | i < |RecordsOf(w, q.graph, edges[n].0)| ensures HasJoined(w, q.graph, edges[n].0, edges[n].1, i) {
      var j := StepMatches(w, q, nodes, edges, n, i);
    }
  }

  // Every source record starts a row, which ends in a record of the dataset arrived at.
  lemma {:induction false} EveryRecordStarts(w: World, q: Query, edges: Edges, n: nat, i: nat) returns (row: Row)
    requires forall m {:trigger JoinsOn(w, q, edges, m)} :: 0 <= m < |edges| ==> JoinsOn(w, q, edges, m)
    requires n <= |edges| && i < |w.records(q.source)|
    ensures IsRow(w, q, edges[..n], row) && row[0] == i
    ensures n > 0 ==> row[n] < |RecordsOf(w, q.graph, edges[n - 1].1)|
    decreases n
  {
    if n == 0 {
      row := [i];
    } else {
      var init := EveryRecordStarts(w, q, edges, n - 1, i);
      assert JoinsOn(w, q, edges, n - 1);
      var e := edges[n - 1];
      assert HasJoined(w, q.graph, e.0, e.1, init[n - 1]);
      var j: nat :| Joined(w, q.graph, e.0, e.1, init[n - 1], j);
      row := init + [j];
      assert edges[..n] == edges[..n - 1] + [e];
      RowSnoc(w, q, edges[..n - 1], e, init, j);
    }
  }

  ghost predicate StartsRow(w: World, q: Query, edges: Edges, i: nat) {
    exists row :: IsRow(w, q, edges, row) && row[0] == i
  }

  ghost predicate AllStart(w: World, q: Query, edges: Edges) {
    forall i: nat :: i < |w.records(q.source)| ==> StartsRow(w, q, edges, i)
  }

  lemma AlwaysStarts(w: World, q: Query, nodes: seq<Dataset>, edges: Edges)
    requires DerivedFrom(q.graph, nodes) && FitsAll(w, nodes) && LegalEdges(q, edges) && AllAlways(q, nodes, edges)
    ensures AllStart(w, q, edges)
  {
    forall n | 0 <= n < |edges| ensures JoinsOn(w, q, edges, n) {
      AllJoinOn(w, q, nodes, edges, n);
    }
    forall i: nat | i < |w.records(q.source)| ensures StartsRow(w, q, edges, i) {
      var row := EveryRecordStarts(w, q, edges, |edges|, i);
      assert edges[..|edges|] == edges;
    }
  }

  // With every match certain, every source record starts a row.
  lemma AllFirst(w: World, q: Query, edges: Edges)
    requires AllStart(w, q, edges)
    requires forall r, s :: IsRow(w, q, edges, r) && IsRow(w, q, edges, s) && r[0] == s[0] ==> r == s
    ensures |JoinRows(w, q, edges)| >= |w.records(q.source)|
  {
    var rows, n := JoinRows(w, q, edges), |w.records(q.source)|;
    RowsAreRows(w, q, edges);
    RowCount(rows, n);
    forall i: nat | i < n ensures i in FirstRecords(rows) {
      assert StartsRow(w, q, edges, i);
      var row :| IsRow(w, q, edges, row) && row[0] == i;
      assert row in rows;
    }
    SubsetSize(FirstNumbers(n), FirstRecords(rows));
  }

  // With every match certain, the join has exactly one row for every source record.
  lemma ExactlyOneRowEach(w: World, q: Query, nodes: seq<Dataset>, edges: Edges)
    requires DerivedFrom(q.graph, nodes) && FitsAll(w, nodes) && OnlyToOne(q) && LegalEdges(q, edges)
    requires AllAlways(q, nodes, edges)
    ensures AllStart(w, q, edges) && |JoinRows(w, q, edges)| == |w.records(q.source)|
  {
    NoFanOut(w, q, nodes, edges);
    AlwaysStarts(w, q, nodes, edges);
    AllFirst(w, q, edges);
  }
}
