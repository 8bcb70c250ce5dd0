// Directed edges of derived relationships, written out by label and edge ID, against the check of the
// document that lists them.
module DocumentEdges {
  import opened Order
  import opened Model
  import opened Derivation
  import opened DerivedRelationships
  import opened Labels
  import opened DocumentCheck

  // What the endpoint model accepts: names throughout, and columns in ascending order without repetition.
  predicate IsAccepted(e: Endpoint) {
    && e.nodeId != "" && e.identityId != "" && e.columns != [] && "" !in e.columns
    && forall i :: 0 < i < |e.columns| ==>
         TextLeq(e.columns[i - 1], e.columns[i]) && e.columns[i - 1] != e.columns[i]
  }

  function SideOf(e: Endpoint): NamedSide { (e.nodeId, e.columns) }

  lemma {:induction false} ColumnsAscend(e: Endpoint, i: nat, j: nat)
    requires IsAccepted(e) && i < j < |e.columns|
    ensures TextLeq(e.columns[i], e.columns[j]) && e.columns[i] != e.columns[j]
    decreases j
  {
    if i + 1 < j {
      ColumnsAscend(e, i, j - 1);
      assert TextLeq(e.columns[j - 1], e.columns[j]);
      TextTransitive(e.columns[i], e.columns[j - 1], e.columns[j]);
      TextTotal(e.columns[i], e.columns[j - 1]);
    } else {
      assert e.columns[j - 1] == e.columns[i];
    }
  }

  lemma AcceptedIsValid(e: Endpoint)
    ensures IsAccepted(e) <==> ValidEnd(e.identityId, SideOf(e))
  {
    if IsAccepted(e) {
      forall i, j | 0 <= i < j < |e.columns|
        ensures e.columns[i] != e.columns[j] && TextLeq(e.columns[i], e.columns[j])
      {
        ColumnsAscend(e, i, j);
      }
    }
  }

  // The array of the directed edge from `x` to `y`.
  predicate IsWritten(r: Relationship, x: Endpoint, y: Endpoint, cells: seq<string>) {
    && ((x == r.a && y == r.b) || (x == r.b && y == r.a))
    && |cells| >= 2 && cells[0] == EdgeLabel(SideOf(x), SideOf(y)) && cells[|cells| - 1] == r.edgeId
  }

  lemma PassesAtStart(x: Endpoint, y: Endpoint, cells: seq<string>)
    requires |cells| >= 2 && cells[0] == EdgeLabel(SideOf(x), SideOf(y)) && cells[|cells| - 1] == EdgeIdFor(x, y)
    requires x.identityId == y.identityId && IsAccepted(x) && IsAccepted(y)
    ensures '[' !in x.nodeId && '[' !in y.nodeId ==> EdgeOk(Holder(x.nodeId, x.identityId, x.columns), |cells|, cells)
    ensures EdgeOk(Holder(x.nodeId, x.identityId, x.columns), |cells|, cells) ==> '[' !in x.nodeId
  {
    AcceptedIsValid(x);
    AcceptedIsValid(y);
    EdgeRoundTripExactly(SideOf(x), SideOf(y));
    if read :| SplitEdge(cells[0]) == Some(read) {
      var names, others := SplitEdgeSpelled(cells[0], read.0, read.1);
    }
  }

  // Written from either end, a derived relationship passes the check at the definition it leaves when
  // neither dataset ID has a bracket; with one in the ID of the start it does not.
  lemma DerivedPasses(os: set<Occurrence>, r: Relationship, x: Endpoint, y: Endpoint, cells: seq<string>)
    requires DistinctEndpoints(os) && r in Derived(os) && IsWritten(r, x, y, cells)
    requires IsAccepted(x) && IsAccepted(y)
    ensures '[' !in x.nodeId && '[' !in y.nodeId ==> EdgeOk(Holder(x.nodeId, x.identityId, x.columns), |cells|, cells)
    ensures EdgeOk(Holder(x.nodeId, x.identityId, x.columns), |cells|, cells) ==> '[' !in x.nodeId
  {
    DerivedIsCanonical(os, r);
    EdgeIdSymmetric(x, y);
    PassesAtStart(x, y, cells);
  }
}
