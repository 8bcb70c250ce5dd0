// Undirected connectivity of datasets through relationships.
module Graph {
  import opened Model

  ghost predicate Adjacent(edges: set<Relationship>, u: string, v: string) {
    exists e :: e in edges && e.Joins(u, v)
  }

  ghost predicate Walk(edges: set<Relationship>, w: seq<string>) {
    w != [] && forall i :: 0 <= i < |w| - 1 ==> Adjacent(edges, w[i], w[i + 1])
  }

  ghost predicate Connected(edges: set<Relationship>, u: string, v: string) {
    exists w :: Walk(edges, w) && w[0] == u && w[|w| - 1] == v
  }

  ghost predicate Crosses(e: Relationship, s: set<string>) {
    (e.a.nodeId in s) != (e.b.nodeId in s)
  }

  lemma ConnectedRefl(edges: set<Relationship>, u: string)
    ensures Connected(edges, u, u)
  {
    assert Walk(edges, [u]);
  }

  lemma ConnectedEdge(edges: set<Relationship>, e: Relationship, u: string, v: string)
    requires e in edges && e.Joins(u, v)
    ensures Connected(edges, u, v)
  {
    var w := [u, v];
    assert Adjacent(edges, w[0], w[1]);
    assert Walk(edges, w);
  }

  lemma ConnectedSym(edges: set<Relationship>, u: string, v: string)
    requires Connected(edges, u, v)
    ensures Connected(edges, v, u)
  {
    var w :| Walk(edges, w) && w[0] == u && w[|w| - 1] == v;
    var r := seq(|w|, i requires 0 <= i < |w| => w[|w| - 1 - i]);
    forall i | 0 <= i < |r| - 1 ensures Adjacent(edges, r[i], r[i + 1]) {
      var k := |w| - 2 - i;
      assert Adjacent(edges, w[k], w[k + 1]);
      var e :| e in edges && e.Joins(w[k], w[k + 1]);
      assert e.Joins(r[i], r[i + 1]);
    }
    assert Walk(edges, r);
  }

  lemma ConnectedTrans(edges: set<Relationship>, u: string, v: string, x: string)
    requires Connected(edges, u, v) && Connected(edges, v, x)
    ensures Connected(edges, u, x)
  {
    var p :| Walk(edges, p) && p[0] == u && p[|p| - 1] == v;
    var q :| Walk(edges, q) && q[0] == v && q[|q| - 1] == x;
    var w := p + q[1..];
    forall i | 0 <= i < |w| - 1 ensures Adjacent(edges, w[i], w[i + 1]) {
      if i < |p| - 1 {
        assert Adjacent(edges, p[i], p[i + 1]);
      } else {
        var k := i - (|p| - 1);
        assert Adjacent(edges, q[k], q[k + 1]);
        assert w[i] == q[k] && w[i + 1] == q[k + 1];
      }
    }
    assert Walk(edges, w);
  }

  lemma ConnectedMonotone(edges: set<Relationship>, more: set<Relationship>, u: string, v: string)
    requires Connected(edges, u, v) && edges <= more
    ensures Connected(more, u, v)
  {
    var w :| Walk(edges, w) && w[0] == u && w[|w| - 1] == v;
    forall i | 0 <= i < |w| - 1 ensures Adjacent(more, w[i], w[i + 1]) {
      assert Adjacent(edges, w[i], w[i + 1]);
    }
    assert Walk(more, w);
  }

  // Whatever separates two connected datasets is crossed by some relationship.
  lemma CutCrossed(edges: set<Relationship>, u: string, v: string, s: set<string>)
    requires Connected(edges, u, v) && u in s && v !in s
    ensures exists e :: e in edges && Crosses(e, s)
  {
    var w :| Walk(edges, w) && w[0] == u && w[|w| - 1] == v;
    var i := 0;
    while w[i + 1] in s
      invariant 0 <= i < |w| - 1 && w[i] in s
      decreases |w| - i
    {
      i := i + 1;
    }
    assert Adjacent(edges, w[i], w[i + 1]);
    var e :| e in edges && e.Joins(w[i], w[i + 1]);
    assert Crosses(e, s);
  }
}
