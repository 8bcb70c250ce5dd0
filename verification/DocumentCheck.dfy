// Checking a document of selected datasets and directed edges (`akg/check.py`).
//
// A finding is its rule and severity; locations and messages are left out.  The document has passed
// its schema, and the two positions of a directed-edge array that are read hold strings.
module DocumentCheck {
  import opened Order
  import opened Model
  import opened Derivation
  import opened Labels

  // ---------- documents ----------

  datatype Usage = Usage(edgeId: string, keep: seq<string>)

  datatype GroupDefinition = GroupDefinition(columns: seq<string>, edges: seq<seq<string>>, usage: seq<Usage>)

  datatype EdgeGroup = EdgeGroup(identityId: string, definitions: seq<GroupDefinition>)

  datatype Listed = Listed(nodeId: string, columns: seq<string>, usageColumns: seq<string>, groups: seq<EdgeGroup>)

  // A reference to a column or to a directed edge of a dataset.
  datatype Reference = Reference(nodeId: string, name: string)

  datatype Comparison = Comparison(anchors: seq<string>, shared: seq<Reference>)

  datatype Gap = Gap(datasets: seq<string>, edges: seq<Reference>)

  datatype Document = Document(
    edgeFields: seq<string>,
    datasets: seq<Listed>,
    comparisons: seq<Comparison>,
    gaps: seq<Gap>)

  const API_EDGE_FIELDS: seq<string> := [
    "edge", "identity_id", "multiplicity", "match_existence", "reverse_multiplicity", "reverse_match_existence",
    "from_description", "to_description", "annotation", "edge_id"]

  datatype Rule =
    | DuplicateDataset | EdgeFields | DanglingReference | UnlistedColumn | EdgeLength | EdgeLabelRule
    | EdgeStart | EdgeKeyRule | DuplicateEdge | UsageKey | NotAnEndpoint

  datatype Severity = Error | Warning

  datatype Finding = Finding(rule: Rule, severity: Severity)

  // `has_errors`
  predicate HasErrors(findings: seq<Finding>) {
    exists i :: 0 <= i < |findings| && findings[i].severity == Error
  }

  lemma ErrorsConcat(a: seq<Finding>, b: seq<Finding>)
    ensures HasErrors(a + b) <==> HasErrors(a) || HasErrors(b)
  {
    if i :| 0 <= i < |a| && a[i].severity == Error { assert (a + b)[i].severity == Error; }
    if i :| 0 <= i < |b| && b[i].severity == Error { assert (a + b)[|a| + i].severity == Error; }
    if i :| 0 <= i < |a + b| && (a + b)[i].severity == Error {
      assert if i < |a| then a[i].severity == Error else b[i - |a|].severity == Error;
    }
  }

  // One finding, or none.
  function If(wrong: bool, rule: Rule, severity: Severity): (r: seq<Finding>)
    ensures HasErrors(r) <==> wrong && severity == Error
    ensures forall f :: f in r <==> wrong && f == Finding(rule, severity)
  {
    if wrong then
      var r := [Finding(rule, severity)];
      assert r[0].severity == severity;
      r
    else []
  }

  // ---------- what a correct document is ----------

  predicate FieldsOk(fields: seq<string>) {
    && |fields| >= 2 && fields[0] == "edge" && fields[|fields| - 1] == "edge_id"
    && (forall i, j :: 0 <= i < j < |fields| ==> fields[i] != fields[j])
    && forall f :: f in fields ==> f in API_EDGE_FIELDS
  }

  // An array read by the names of its positions; of two alike the later one counts.
  function Values(fields: seq<string>, cells: seq<string>): map<string, string>
    requires |cells| == |fields|
  {
    if fields == [] then map[]
    else var n := |fields| - 1; Values(fields[..n], cells[..n])[fields[n] := cells[n]]
  }

  lemma {:induction false} ValuesAt(fields: seq<string>, cells: seq<string>, i: nat)
    requires |cells| == |fields| && i < |fields| && fields[i] !in fields[i + 1..]
    ensures fields[i] in Values(fields, cells) && Values(fields, cells)[fields[i]] == cells[i]
  {
    var n := |fields| - 1;
    if i < n {
      assert fields[i + 1..] == fields[..n][i + 1..] + [fields[n]];
      ValuesAt(fields[..n], cells[..n], i);
    }
  }

  // Under fields that are in order the two that are read are the first and the last.
  lemma EdgeAndId(fields: seq<string>, cells: seq<string>)
    requires FieldsOk(fields) && |cells| == |fields|
    ensures var values := Values(fields, cells);
            && "edge" in values && values["edge"] == cells[0]
            && "edge_id" in values && values["edge_id"] == cells[|cells| - 1]
  {
    ValuesAt(fields, cells, 0);
    ValuesAt(fields, cells, |fields| - 1);
  }

  // The endpoint model's own demands.
  predicate ValidEnd(identityId: string, end: NamedSide) {
    && end.0 != "" && identityId != "" && end.1 != [] && "" !in end.1
    && forall i, j :: 0 <= i < j < |end.1| ==> end.1[i] != end.1[j] && TextLeq(end.1[i], end.1[j])
  }

  // `_edge_id`
  function CanonicalId(identityId: string, start: NamedSide, end: NamedSide): Option<string> {
    if ValidEnd(identityId, start) && ValidEnd(identityId, end)
    then Some(EdgeIdFor(Endpoint(start.0, identityId, start.1), Endpoint(end.0, identityId, end.1)))
    else None
  }

  predicate Readable(width: nat, cells: seq<string>) {
    width > 0 && |cells| == width && SplitEdge(cells[0]).Some?
  }

  function EndNode(width: nat, cells: seq<string>): string
    requires Readable(width, cells)
  {
    SplitEdge(cells[0]).value.1.0
  }

  function IdOf(width: nat, cells: seq<string>): string
    requires Readable(width, cells)
  {
    cells[width - 1]
  }

  // Where an edge is held: a definition of a dataset.
  datatype Holder = Holder(nodeId: string, identityId: string, columns: seq<string>)

  // Starts at its holder and has its canonical ID.
  predicate EdgeOk(h: Holder, width: nat, cells: seq<string>) {
    && Readable(width, cells)
    && SplitEdge(cells[0]).value.0 == (h.nodeId, h.columns)
    && CanonicalId(h.identityId, SplitEdge(cells[0]).value.0, SplitEdge(cells[0]).value.1) == Some(IdOf(width, cells))
  }

  predicate UsageOk(h: Holder, width: nat, edges: seq<seq<string>>, u: Usage) {
    exists cells :: cells in edges && Readable(width, cells) && IdOf(width, cells) == u.edgeId
      && forall kept :: kept in u.keep ==> kept == h.nodeId || kept == EndNode(width, cells)
  }

  predicate EdgesOnce(width: nat, edges: seq<seq<string>>) {
    forall i, j :: 0 <= i < j < |edges| && Readable(width, edges[i]) && Readable(width, edges[j]) ==>
      IdOf(width, edges[i]) != IdOf(width, edges[j])
  }

  predicate EdgesOk(h: Holder, width: nat, edges: seq<seq<string>>) {
    (forall cells :: cells in edges ==> EdgeOk(h, width, cells)) && EdgesOnce(width, edges)
  }

  predicate EndsListed(width: nat, names: set<string>, edges: seq<seq<string>>) {
    forall cells :: cells in edges && Readable(width, cells) ==> EndNode(width, cells) in names
  }

  predicate UsagesOk(h: Holder, width: nat, edges: seq<seq<string>>, usage: seq<Usage>) {
    forall u :: u in usage ==> UsageOk(h, width, edges, u)
  }

  // ---------- the directed edges of one definition ----------

  ghost predicate Ends(width: nat, edges: seq<seq<string>>, ends: map<string, string>) {
    && (forall id :: id in ends ==> exists cells ::
          cells in edges && Readable(width, cells) && IdOf(width, cells) == id && EndNode(width, cells) == ends[id])
    && (forall cells :: cells in edges && Readable(width, cells) ==> IdOf(width, cells) in ends)
  }

  predicate AllReadable(width: nat, edges: seq<seq<string>>) {
    forall cells :: cells in edges ==> Readable(width, cells)
  }

  // What the edges looked at so far amount to.
  ghost predicate EdgesChecked(h: Holder, width: nat, names: set<string>, final: bool, edges: seq<seq<string>>,
                               findings: seq<Finding>, ends: map<string, string>, readable: bool) {
    && (HasErrors(findings) <==> !(EdgesOk(h, width, edges) && (final ==> EndsListed(width, names, edges))))
    && Ends(width, edges, ends) && (readable <==> AllReadable(width, edges))
  }

  function Dangling(final: bool): Severity { if final then Error else Warning }

  ghost predicate HeldBefore(width: nat, edges: seq<seq<string>>, cells: seq<string>)
    requires Readable(width, cells)
  {
    exists x :: x in edges && Readable(width, x) && IdOf(width, x) == IdOf(width, cells)
  }

  // What is reported of an edge that comes after `edges`.
  ghost predicate EdgeReports(h: Holder, width: nat, names: set<string>, final: bool, edges: seq<seq<string>>,
                              cells: seq<string>, f: Finding)
    requires width > 0
  {
    if |cells| != width then f == Finding(EdgeLength, Error)
    else if SplitEdge(cells[0]).None? then f == Finding(EdgeLabelRule, Error)
    else
      var (start, end) := SplitEdge(cells[0]).value;
      || (f == Finding(EdgeStart, Error) && start != (h.nodeId, h.columns))
      || (f == Finding(EdgeKeyRule, Error) && CanonicalId(h.identityId, start, end) != Some(cells[width - 1]))
      || (f == Finding(DuplicateEdge, Error) && HeldBefore(width, edges, cells))
      || (f == Finding(DanglingReference, Dangling(final)) && end.0 !in names)
  }

  ghost predicate EdgesReport(h: Holder, width: nat, names: set<string>, final: bool, edges: seq<seq<string>>,
                              f: Finding)
    requires width > 0
  {
    exists n :: 0 <= n < |edges| && EdgeReports(h, width, names, final, edges[..n], edges[n], f)
  }

  lemma EdgesReportNext(h: Holder, width: nat, names: set<string>, final: bool, edges: seq<seq<string>>,
                        cells: seq<string>, f: Finding)
    requires width > 0
    ensures EdgesReport(h, width, names, final, edges + [cells], f) <==>
            EdgesReport(h, width, names, final, edges, f) || EdgeReports(h, width, names, final, edges, cells, f)
  {
    var more := edges + [cells];
    assert more[..|edges|] == edges && more[|edges|] == cells;
    if n :| 0 <= n < |edges| && EdgeReports(h, width, names, final, edges[..n], edges[n], f) {
      assert more[..n] == edges[..n] && more[n] == edges[n];
    }
    if n :| 0 <= n < |more| && EdgeReports(h, width, names, final, more[..n], more[n], f) {
      if n < |edges| { assert more[..n] == edges[..n] && more[n] == edges[n]; }
    }
  }

  // The findings of one edge that could be read.
  function EdgeFindings(h: Holder, width: nat, names: set<string>, final: bool, cells: seq<string>,
                        seen: bool): (r: seq<Finding>)
    requires Readable(width, cells)
    ensures HasErrors(r) <==> !EdgeOk(h, width, cells) || seen || (final && EndNode(width, cells) !in names)
    ensures forall edges, f :: (seen <==> HeldBefore(width, edges, cells)) ==>
              (f in r <==> EdgeReports(h, width, names, final, edges, cells, f))
  {
    var (start, end) := SplitEdge(cells[0]).value;
    var a := If(start != (h.nodeId, h.columns), EdgeStart, Error);
    var b := If(CanonicalId(h.identityId, start, end) != Some(IdOf(width, cells)), EdgeKeyRule, Error);
    var c := If(seen, DuplicateEdge, Error);
    var d := If(end.0 !in names, DanglingReference, Dangling(final));
    ErrorsConcat(a, b);
    ErrorsConcat(a + b, c);
    ErrorsConcat(a + b + c, d);
    a + b + c + d
  }

  lemma EdgesNext(h: Holder, width: nat, names: set<string>, edges: seq<seq<string>>, cells: seq<string>)
    ensures AllReadable(width, edges + [cells]) <==> AllReadable(width, edges) && Readable(width, cells)
    ensures EndsListed(width, names, edges + [cells]) <==>
              EndsListed(width, names, edges) && (Readable(width, cells) ==> EndNode(width, cells) in names)
    ensures (forall x :: x in edges + [cells] ==> EdgeOk(h, width, x)) <==>
                (forall x :: x in edges ==> EdgeOk(h, width, x)) && EdgeOk(h, width, cells)
  {
    assert cells in edges + [cells];
    assert forall x :: x in edges ==> x in edges + [cells];
  }

  lemma OnceNext(width: nat, edges: seq<seq<string>>, cells: seq<string>)
    ensures EdgesOnce(width, edges + [cells]) <==>
              EdgesOnce(width, edges) && (Readable(width, cells) ==> forall x :: x in edges && Readable(width, x) ==>
                                           IdOf(width, x) != IdOf(width, cells))
  {
    var more := edges + [cells];
    if EdgesOnce(width, more) {
      assert forall i :: 0 <= i < |edges| ==> more[i] == edges[i];
      forall x | x in edges && Readable(width, x) && Readable(width, cells)
        ensures IdOf(width, x) != IdOf(width, cells)
      {
        var i :| 0 <= i < |edges| && edges[i] == x;
        assert more[i] == x && more[|edges|] == cells;
      }
      forall i, j | 0 <= i < j < |edges| && Readable(width, edges[i]) && Readable(width, edges[j])
        ensures IdOf(width, edges[i]) != IdOf(width, edges[j])
      {
        assert more[i] == edges[i] && more[j] == edges[j];
      }
    }
  }

  lemma EndsNext(width: nat, edges: seq<seq<string>>, ends: map<string, string>, cells: seq<string>)
    requires Ends(width, edges, ends)
    ensures Readable(width, cells) ==> Ends(width, edges + [cells], ends[IdOf(width, cells) := EndNode(width, cells)])
    ensures !Readable(width, cells) ==> Ends(width, edges + [cells], ends)
    ensures Readable(width, cells) ==>
              (IdOf(width, cells) in ends <==> exists x ::
                 x in edges && Readable(width, x) && IdOf(width, x) == IdOf(width, cells))
  {
    var more := edges + [cells];
    assert cells in more && forall x :: x in edges ==> x in more;
    if Readable(width, cells) {
      var after := ends[IdOf(width, cells) := EndNode(width, cells)];
      forall id | id in after
        ensures exists x :: x in more && Readable(width, x) && IdOf(width, x) == id && EndNode(width, x) == after[id]
      {
        if id == IdOf(width, cells) {
          assert cells in more;
        } else {
          var x :| x in edges && Readable(width, x) && IdOf(width, x) == id && EndNode(width, x) == ends[id];
          assert x in more;
        }
      }
    }
  }

  lemma EdgeChecked(h: Holder, width: nat, names: set<string>, final: bool, edges: seq<seq<string>>, cells: seq<string>,
                    findings: seq<Finding>, ends: map<string, string>, readable: bool)
    requires EdgesChecked(h, width, names, final, edges, findings, ends, readable) && Readable(width, cells)
    ensures EdgesChecked(h, width, names, final, edges + [cells],
              findings + EdgeFindings(h, width, names, final, cells, IdOf(width, cells) in ends),
              ends[IdOf(width, cells) := EndNode(width, cells)], readable)
  {
    var added := EdgeFindings(h, width, names, final, cells, IdOf(width, cells) in ends);
    ErrorsConcat(findings, added);
    EdgesNext(h, width, names, edges, cells);
    OnceNext(width, edges, cells);
    EndsNext(width, edges, ends, cells);
  }

  lemma EdgeUnread(h: Holder, width: nat, names: set<string>, final: bool, edges: seq<seq<string>>, cells: seq<string>,
                   findings: seq<Finding>, ends: map<string, string>, readable: bool, rule: Rule)
    requires EdgesChecked(h, width, names, final, edges, findings, ends, readable) && !Readable(width, cells)
    ensures EdgesChecked(h, width, names, final, edges + [cells], findings + If(true, rule, Error), ends, false)
  {
    ErrorsConcat(findings, If(true, rule, Error));
    EdgesNext(h, width, names, edges, cells);
    EndsNext(width, edges, ends, cells);
  }

  method CheckEdge(h: Holder, width: nat, names: set<string>, final: bool, ghost edges: seq<seq<string>>,
                   cells: seq<string>, findings: seq<Finding>, ends: map<string, string>, readable: bool)
    returns (findings': seq<Finding>, ends': map<string, string>, readable': bool)
    requires width > 0 && EdgesChecked(h, width, names, final, edges, findings, ends, readable)
    requires EdgesReported(h, width, names, final, edges, findings, ends)
    ensures EdgesChecked(h, width, names, final, edges + [cells], findings', ends', readable')
    ensures EdgesReported(h, width, names, final, edges + [cells], findings', ends')
  {
    if |cells| != width {
      EdgeUnread(h, width, names, final, edges, cells, findings, ends, readable, EdgeLength);
      UnreadReported(h, width, names, final, edges, cells, findings, ends, EdgeLength);
      return findings + If(true, EdgeLength, Error), ends, false;
    }
    var read := SplitEdgeLabel(cells[0]);
    if read.None? {
      EdgeUnread(h, width, names, final, edges, cells, findings, ends, readable, EdgeLabelRule);
      UnreadReported(h, width, names, final, edges, cells, findings, ends, EdgeLabelRule);
      return findings + If(true, EdgeLabelRule, Error), ends, false;
    }
    EdgeChecked(h, width, names, final, edges, cells, findings, ends, readable);
    ReadReported(h, width, names, final, edges, cells, findings, ends);
    var id := IdOf(width, cells);
    var added := EdgeFindings(h, width, names, final, cells, id in ends);
    return findings + added, ends[id := EndNode(width, cells)], readable;
  }

  // The last readable edge with an ID.
  ghost predicate LastWith(width: nat, edges: seq<seq<string>>, id: string, n: nat) {
    && n < |edges| && Readable(width, edges[n]) && IdOf(width, edges[n]) == id
    && forall m :: n < m < |edges| && Readable(width, edges[m]) ==> IdOf(width, edges[m]) != id
  }

  ghost predicate LastEnds(width: nat, edges: seq<seq<string>>, ends: map<string, string>) {
    && (forall id :: id in ends <==> exists n: nat :: LastWith(width, edges, id, n))
    && (forall id, n: nat :: LastWith(width, edges, id, n) ==> id in ends && ends[id] == EndNode(width, edges[n]))
  }

  lemma LastWithNext(width: nat, edges: seq<seq<string>>, cells: seq<string>, id: string, n: nat)
    ensures LastWith(width, edges + [cells], id, n) <==>
              if Readable(width, cells) && IdOf(width, cells) == id then n == |edges| else LastWith(width, edges, id, n)
  {
    var more := edges + [cells];
    assert more[|edges|] == cells && forall m :: 0 <= m < |edges| ==> more[m] == edges[m];
  }

  function EndsWith(width: nat, ends: map<string, string>, cells: seq<string>): map<string, string> {
    if Readable(width, cells) then ends[IdOf(width, cells) := EndNode(width, cells)] else ends
  }

  lemma LastEndsNext(width: nat, edges: seq<seq<string>>, ends: map<string, string>, cells: seq<string>)
    requires LastEnds(width, edges, ends)
    ensures LastEnds(width, edges + [cells], EndsWith(width, ends, cells))
  {
    var more, after := edges + [cells], EndsWith(width, ends, cells);
    forall id ensures id in after <==> exists n: nat :: LastWith(width, more, id, n) {
      if Readable(width, cells) && IdOf(width, cells) == id {
        LastWithNext(width, edges, cells, id, |edges|);
      } else if id in ends {
        var n: nat :| LastWith(width, edges, id, n);
        LastWithNext(width, edges, cells, id, n);
      } else if n: nat :| LastWith(width, more, id, n) {
        LastWithNext(width, edges, cells, id, n);
      }
    }
    forall id, n: nat | LastWith(width, more, id, n) ensures id in after && after[id] == EndNode(width, more[n]) {
      LastWithNext(width, edges, cells, id, n);
      assert n < |edges| ==> more[n] == edges[n];
    }
  }

  // Everything reported of the edges is among the findings, and nothing else.
  ghost predicate EdgesReported(h: Holder, width: nat, names: set<string>, final: bool, edges: seq<seq<string>>,
                                findings: seq<Finding>, ends: map<string, string>)
    requires width > 0
  {
    (forall f :: f in findings <==> EdgesReport(h, width, names, final, edges, f)) && LastEnds(width, edges, ends)
  }

  lemma ReportedNext(h: Holder, width: nat, names: set<string>, final: bool, edges: seq<seq<string>>,
                     cells: seq<string>, findings: seq<Finding>, ends: map<string, string>, more: seq<Finding>)
    requires width > 0 && EdgesReported(h, width, names, final, edges, findings, ends)
    requires forall f :: f in more <==> EdgeReports(h, width, names, final, edges, cells, f)
    ensures EdgesReported(h, width, names, final, edges + [cells], findings + more, EndsWith(width, ends, cells))
  {
    LastEndsNext(width, edges, ends, cells);
    forall f ensures f in findings + more <==> EdgesReport(h, width, names, final, edges + [cells], f) {
      EdgesReportNext(h, width, names, final, edges, cells, f);
    }
  }

  lemma UnreadReported(h: Holder, width: nat, names: set<string>, final: bool, edges: seq<seq<string>>,
                       cells: seq<string>, findings: seq<Finding>, ends: map<string, string>, rule: Rule)
    requires width > 0 && EdgesReported(h, width, names, final, edges, findings, ends)
    requires !Readable(width, cells) && rule == if |cells| != width then EdgeLength else EdgeLabelRule
    ensures EdgesReported(h, width, names, final, edges + [cells], findings + If(true, rule, Error), ends)
  {
    ReportedNext(h, width, names, final, edges, cells, findings, ends, If(true, rule, Error));
  }

  lemma ReadReported(h: Holder, width: nat, names: set<string>, final: bool, edges: seq<seq<string>>,
                     cells: seq<string>, findings: seq<Finding>, ends: map<string, string>)
    requires Readable(width, cells) && EdgesReported(h, width, names, final, edges, findings, ends)
    requires Ends(width, edges, ends)
    ensures EdgesReported(h, width, names, final, edges + [cells],
              findings + EdgeFindings(h, width, names, final, cells, IdOf(width, cells) in ends),
              ends[IdOf(width, cells) := EndNode(width, cells)])
  {
    EndsNext(width, edges, ends, cells);
    ReportedNext(h, width, names, final, edges, cells, findings, ends,
                 EdgeFindings(h, width, names, final, cells, IdOf(width, cells) in ends));
  }

  lemma NoneChecked(h: Holder, width: nat, names: set<string>, final: bool)
    ensures EdgesChecked(h, width, names, final, [], [], map[], true)
  {}

  lemma TakeNext<T>(list: seq<T>, n: nat)
    requires n < |list|
    ensures list[..n + 1] == list[..n] + [list[n]]
  {}

  method CheckEdges(h: Holder, width: nat, names: set<string>, final: bool, edges: seq<seq<string>>)
    returns (findings: seq<Finding>, ends: map<string, string>, readable: bool)
    requires width > 0
    ensures EdgesChecked(h, width, names, final, edges, findings, ends, readable)
    ensures EdgesReported(h, width, names, final, edges, findings, ends)
  {
    findings, ends, readable := [], map[], true;
    NoneChecked(h, width, names, final);
    for n := 0 to |edges|
      invariant EdgesChecked(h, width, names, final, edges[..n], findings, ends, readable)
      invariant EdgesReported(h, width, names, final, edges[..n], findings, ends)
    {
      TakeNext(edges, n);
      findings, ends, readable := CheckEdge(h, width, names, final, edges[..n], edges[n], findings, ends, readable);
    }
    assert edges[..|edges|] == edges;
  }

  // ---------- usage of directed edges ----------

  predicate KeepOk(h: Holder, end: string, keep: seq<string>) {
    forall kept :: kept in keep ==> kept == h.nodeId || kept == end
  }

  // With each edge held once, the end looked up is that of the edge named.
  lemma UsageByEnds(h: Holder, width: nat, edges: seq<seq<string>>, ends: map<string, string>, u: Usage)
    requires Ends(width, edges, ends) && EdgesOnce(width, edges)
    ensures UsageOk(h, width, edges, u) <==> u.edgeId in ends && KeepOk(h, ends[u.edgeId], u.keep)
  {
    if UsageOk(h, width, edges, u) {
      var x :| x in edges && Readable(width, x) && IdOf(width, x) == u.edgeId
        && forall kept :: kept in u.keep ==> kept == h.nodeId || kept == EndNode(width, x);
      SameEdge(width, edges, ends, x);
    }
    if u.edgeId in ends && KeepOk(h, ends[u.edgeId], u.keep) {
      var x :| x in edges && Readable(width, x) && IdOf(width, x) == u.edgeId && EndNode(width, x) == ends[u.edgeId];
      assert forall kept :: kept in u.keep ==> kept == h.nodeId || kept == EndNode(width, x);
    }
  }

  lemma SameEdge(width: nat, edges: seq<seq<string>>, ends: map<string, string>, x: seq<string>)
    requires Ends(width, edges, ends) && EdgesOnce(width, edges) && x in edges && Readable(width, x)
    ensures IdOf(width, x) in ends && ends[IdOf(width, x)] == EndNode(width, x)
  {
    var y :| y in edges && Readable(width, y) && IdOf(width, y) == IdOf(width, x)
               && EndNode(width, y) == ends[IdOf(width, x)];
    var i :| 0 <= i < |edges| && edges[i] == x;
    var j :| 0 <= j < |edges| && edges[j] == y;
  }

  ghost predicate KeepReports(h: Holder, end: string, keep: seq<string>, f: Finding) {
    f == Finding(NotAnEndpoint, Error) && exists kept :: kept in keep && kept != h.nodeId && kept != end
  }

  method CheckKeep(h: Holder, end: string, keep: seq<string>) returns (findings: seq<Finding>)
    ensures HasErrors(findings) <==> !KeepOk(h, end, keep)
    ensures forall f :: f in findings <==> KeepReports(h, end, keep, f)
  {
    findings := [];
    for n := 0 to |keep|
      invariant HasErrors(findings) <==> !KeepOk(h, end, keep[..n])
      invariant forall f :: f in findings <==> KeepReports(h, end, keep[..n], f)
    {
      assert keep[..n + 1] == keep[..n] + [keep[n]] && keep[n] in keep[..n + 1];
      assert forall k :: k in keep[..n] ==> k in keep[..n + 1];
      var more := If(keep[n] != h.nodeId && keep[n] != end, NotAnEndpoint, Error);
      ErrorsConcat(findings, more);
      findings := findings + more;
    }
    assert keep[..|keep|] == keep;
  }

  predicate UsageByEndsOk(h: Holder, ends: map<string, string>, usage: seq<Usage>) {
    forall u :: u in usage ==> u.edgeId in ends && KeepOk(h, ends[u.edgeId], u.keep)
  }

  // What is reported of one entry: it names no edge, or keeps what is no end of the edge.
  ghost predicate EntryReports(h: Holder, ends: map<string, string>, u: Usage, f: Finding) {
    if u.edgeId !in ends then f == Finding(UsageKey, Error) else KeepReports(h, ends[u.edgeId], u.keep, f)
  }

  ghost predicate UsageReports(h: Holder, ends: map<string, string>, usage: seq<Usage>, f: Finding) {
    exists u :: u in usage && EntryReports(h, ends, u, f)
  }

  lemma UsageReportsNext(h: Holder, ends: map<string, string>, usage: seq<Usage>, u: Usage, f: Finding)
    ensures UsageReports(h, ends, usage + [u], f) <==> UsageReports(h, ends, usage, f) || EntryReports(h, ends, u, f)
  {
    assert forall x :: x in usage + [u] <==> x in usage || x == u;
  }

  method CheckUsage(h: Holder, ends: map<string, string>, usage: seq<Usage>) returns (findings: seq<Finding>)
    ensures HasErrors(findings) <==> !UsageByEndsOk(h, ends, usage)
    ensures forall f :: f in findings <==> UsageReports(h, ends, usage, f)
  {
    findings := [];
    for n := 0 to |usage|
      invariant HasErrors(findings) <==> !UsageByEndsOk(h, ends, usage[..n])
      invariant forall f :: f in findings <==> UsageReports(h, ends, usage[..n], f)
    {
      assert usage[..n + 1] == usage[..n] + [usage[n]];
      forall f {
        UsageReportsNext(h, ends, usage[..n], usage[n], f);
      }
      var more;
      if usage[n].edgeId !in ends {
        more := If(true, UsageKey, Error);
      } else {
        more := CheckKeep(h, ends[usage[n].edgeId], usage[n].keep);
      }
      ErrorsConcat(findings, more);
      findings := findings + more;
    }
    assert usage[..|usage|] == usage;
  }

  predicate DefinitionOk(h: Holder, width: nat, names: set<string>, final: bool, d: GroupDefinition) {
    EdgesOk(h, width, d.edges) && UsagesOk(h, width, d.edges, d.usage) && (final ==> EndsListed(width, names, d.edges))
  }

  // The directed edges a definition holds.
  function Held(width: nat, edges: seq<seq<string>>): set<string> {
    set cells | cells in edges && Readable(width, cells) :: IdOf(width, cells)
  }

  // An entry of usage against the edges themselves: the last one with its ID counts.
  ghost predicate UsedReports(h: Holder, width: nat, edges: seq<seq<string>>, u: Usage, f: Finding) {
    || (f == Finding(UsageKey, Error)
        && forall cells :: cells in edges && Readable(width, cells) ==> IdOf(width, cells) != u.edgeId)
    || exists n: nat :: LastWith(width, edges, u.edgeId, n) && KeepReports(h, EndNode(width, edges[n]), u.keep, f)
  }

  // What is reported of a definition; usage is looked at only when every edge can be read.
  ghost predicate DefinitionReports(h: Holder, width: nat, names: set<string>, final: bool, d: GroupDefinition,
                                    f: Finding)
    requires width > 0
  {
    || EdgesReport(h, width, names, final, d.edges, f)
    || (AllReadable(width, d.edges) && exists u :: u in d.usage && UsedReports(h, width, d.edges, u, f))
  }

  lemma {:induction false} LastExists(width: nat, edges: seq<seq<string>>, n: nat) returns (last: nat)
    requires n < |edges| && Readable(width, edges[n])
    ensures LastWith(width, edges, IdOf(width, edges[n]), last)
    decreases |edges| - n
  {
    if m: nat :| n < m < |edges| && Readable(width, edges[m]) && IdOf(width, edges[m]) == IdOf(width, edges[n]) {
      last := LastExists(width, edges, m);
    } else {
      last := n;
    }
  }

  lemma EntryUsed(h: Holder, width: nat, edges: seq<seq<string>>, ends: map<string, string>, u: Usage, f: Finding)
    requires LastEnds(width, edges, ends)
    ensures EntryReports(h, ends, u, f) <==> UsedReports(h, width, edges, u, f)
  {
    if cells :| cells in edges && Readable(width, cells) && IdOf(width, cells) == u.edgeId {
      var n :| 0 <= n < |edges| && edges[n] == cells;
      var last := LastExists(width, edges, n);
      assert u.edgeId in ends;
    } else {
      assert forall n: nat :: !LastWith(width, edges, u.edgeId, n);
    }
  }

  lemma UsageUsed(h: Holder, width: nat, edges: seq<seq<string>>, ends: map<string, string>, usage: seq<Usage>,
                  f: Finding)
    requires LastEnds(width, edges, ends)
    ensures UsageReports(h, ends, usage, f) <==> exists u :: u in usage && UsedReports(h, width, edges, u, f)
  {
    forall u ensures EntryReports(h, ends, u, f) <==> UsedReports(h, width, edges, u, f) {
      EntryUsed(h, width, edges, ends, u, f);
    }
  }

  // `_check_definition`: usage is looked at only when every edge could be read.
  method CheckDefinition(h: Holder, width: nat, names: set<string>, final: bool, d: GroupDefinition)
    returns (findings: seq<Finding>, held: set<string>)
    requires width > 0
    ensures HasErrors(findings) <==> !DefinitionOk(h, width, names, final, d)
    ensures forall f :: f in findings <==> DefinitionReports(h, width, names, final, d, f)
    ensures held == Held(width, d.edges)
  {
    var ends, readable;
    findings, ends, readable := CheckEdges(h, width, names, final, d.edges);
    held := ends.Keys;
    if readable {
      var more := CheckUsage(h, ends, d.usage);
      forall f {
        UsageUsed(h, width, d.edges, ends, d.usage, f);
      }
      ErrorsConcat(findings, more);
      if EdgesOnce(width, d.edges) {
        forall u | u in d.usage
          ensures UsageOk(h, width, d.edges, u) <==> u.edgeId in ends && KeepOk(h, ends[u.edgeId], u.keep)
        {
          UsageByEnds(h, width, d.edges, ends, u);
        }
      }
      findings := findings + more;
    }
  }

  // ---------- datasets ----------

  predicate DatasetOk(width: nat, names: set<string>, final: bool, ds: Listed) {
    && (final ==> forall c :: c in ds.usageColumns ==> c in ds.columns)
    && forall g, d :: g in ds.groups && d in g.definitions ==>
         DefinitionOk(Holder(ds.nodeId, g.identityId, d.columns), width, names, final, d)
  }

  function GroupHeld(width: nat, g: EdgeGroup): set<string> {
    set d, id | d in g.definitions && id in Held(width, d.edges) :: id
  }

  function DatasetHeld(width: nat, ds: Listed): set<string> {
    set g, id | g in ds.groups && id in GroupHeld(width, g) :: id
  }

  predicate GroupOk(nodeId: string, width: nat, names: set<string>, final: bool, g: EdgeGroup) {
    forall d :: d in g.definitions ==> DefinitionOk(Holder(nodeId, g.identityId, d.columns), width, names, final, d)
  }

  ghost predicate GroupReports(nodeId: string, width: nat, names: set<string>, final: bool, g: EdgeGroup, f: Finding)
    requires width > 0
  {
    exists d :: d in g.definitions
      && DefinitionReports(Holder(nodeId, g.identityId, d.columns), width, names, final, d, f)
  }

  lemma GroupReportsNext(nodeId: string, width: nat, names: set<string>, final: bool, g: EdgeGroup, d: GroupDefinition,
                         f: Finding)
    requires width > 0
    ensures GroupReports(nodeId, width, names, final, g.(definitions := g.definitions + [d]), f) <==>
            || GroupReports(nodeId, width, names, final, g, f)
            || DefinitionReports(Holder(nodeId, g.identityId, d.columns), width, names, final, d, f)
  {
    assert forall x :: x in g.definitions + [d] <==> x in g.definitions || x == d;
  }

  method CheckGroup(nodeId: string, width: nat, names: set<string>, final: bool, g: EdgeGroup)
    returns (findings: seq<Finding>, held: set<string>)
    requires width > 0
    ensures HasErrors(findings) <==> !GroupOk(nodeId, width, names, final, g)
    ensures forall f :: f in findings <==> GroupReports(nodeId, width, names, final, g, f)
    ensures held == GroupHeld(width, g)
  {
    findings, held := [], {};
    var ds := g.definitions;
    for n := 0 to |ds|
      invariant HasErrors(findings) <==> !GroupOk(nodeId, width, names, final, g.(definitions := ds[..n]))
      invariant forall f :: f in findings <==>
                              GroupReports(nodeId, width, names, final, g.(definitions := ds[..n]), f)
      invariant held == GroupHeld(width, g.(definitions := ds[..n]))
    {
      assert ds[..n + 1] == ds[..n] + [ds[n]];
      forall f {
        GroupReportsNext(nodeId, width, names, final, g.(definitions := ds[..n]), ds[n], f);
      }
      var more, ids := CheckDefinition(Holder(nodeId, g.identityId, ds[n].columns), width, names, final, ds[n]);
      ErrorsConcat(findings, more);
      findings, held := findings + more, held + ids;
    }
    assert ds[..|ds|] == ds;
    assert g.(definitions := ds[..|ds|]) == g;
  }

  predicate ColumnsListed(columns: seq<string>, listed: seq<string>) {
    forall c :: c in columns ==> c in listed
  }

  method CheckColumns(columns: seq<string>, listed: seq<string>, final: bool) returns (findings: seq<Finding>)
    ensures HasErrors(findings) <==> final && !ColumnsListed(columns, listed)
    ensures forall f :: f in findings <==>
                        f == Finding(UnlistedColumn, Dangling(final)) && !ColumnsListed(columns, listed)
  {
    findings := [];
    for n := 0 to |columns|
      invariant HasErrors(findings) <==> final && !ColumnsListed(columns[..n], listed)
      invariant forall f :: f in findings <==>
                            f == Finding(UnlistedColumn, Dangling(final)) && !ColumnsListed(columns[..n], listed)
    {
      assert columns[..n + 1] == columns[..n] + [columns[n]];
      var more := If(columns[n] !in listed, UnlistedColumn, Dangling(final));
      ErrorsConcat(findings, more);
      findings := findings + more;
    }
    assert columns[..|columns|] == columns;
  }

  predicate GroupsOk(nodeId: string, width: nat, names: set<string>, final: bool, groups: seq<EdgeGroup>) {
    forall g :: g in groups ==> GroupOk(nodeId, width, names, final, g)
  }

  ghost predicate GroupsReport(nodeId: string, width: nat, names: set<string>, final: bool, groups: seq<EdgeGroup>,
                               f: Finding)
    requires width > 0
  {
    exists g :: g in groups && GroupReports(nodeId, width, names, final, g, f)
  }

  // What is reported of a dataset: columns its usage names that it does not list, and its definitions.
  ghost predicate DatasetReports(width: nat, names: set<string>, final: bool, ds: Listed, f: Finding)
    requires width > 0
  {
    || (f == Finding(UnlistedColumn, Dangling(final)) && !ColumnsListed(ds.usageColumns, ds.columns))
    || GroupsReport(ds.nodeId, width, names, final, ds.groups, f)
  }

  lemma GroupsReportNext(nodeId: string, width: nat, names: set<string>, final: bool, groups: seq<EdgeGroup>,
                         g: EdgeGroup, f: Finding)
    requires width > 0
    ensures GroupsReport(nodeId, width, names, final, groups + [g], f) <==>
            GroupsReport(nodeId, width, names, final, groups, f) || GroupReports(nodeId, width, names, final, g, f)
  {
    assert forall x :: x in groups + [g] <==> x in groups || x == g;
  }

  method CheckDataset(width: nat, names: set<string>, final: bool, ds: Listed)
    returns (findings: seq<Finding>, held: set<string>)
    requires width > 0
    ensures HasErrors(findings) <==> !DatasetOk(width, names, final, ds)
    ensures forall f :: f in findings <==> DatasetReports(width, names, final, ds, f)
    ensures held == DatasetHeld(width, ds)
  {
    findings := CheckColumns(ds.usageColumns, ds.columns, final);
    held := {};
    for n := 0 to |ds.groups|
      invariant HasErrors(findings) <==>
        (final && !ColumnsListed(ds.usageColumns, ds.columns))
        || !GroupsOk(ds.nodeId, width, names, final, ds.groups[..n])
      invariant forall f :: f in findings <==>
        || (f == Finding(UnlistedColumn, Dangling(final)) && !ColumnsListed(ds.usageColumns, ds.columns))
        || GroupsReport(ds.nodeId, width, names, final, ds.groups[..n], f)
      invariant held == DatasetHeld(width, ds.(groups := ds.groups[..n]))
    {
      assert ds.groups[..n + 1] == ds.groups[..n] + [ds.groups[n]];
      forall f {
        GroupsReportNext(ds.nodeId, width, names, final, ds.groups[..n], ds.groups[n], f);
      }
      var more, ids := CheckGroup(ds.nodeId, width, names, final, ds.groups[n]);
      ErrorsConcat(findings, more);
      findings, held := findings + more, held + ids;
    }
    assert ds.groups[..|ds.groups|] == ds.groups;
    assert ds.(groups := ds.groups[..|ds.groups|]) == ds;
    assert DatasetOk(width, names, final, ds) <==>
           (final ==> ColumnsListed(ds.usageColumns, ds.columns))
           && GroupsOk(ds.nodeId, width, names, final, ds.groups) by {
      if DatasetOk(width, names, final, ds) {
        forall g | g in ds.groups ensures GroupOk(ds.nodeId, width, names, final, g) {}
      }
    }
  }

  // ---------- references ----------

  predicate IsListed(datasets: seq<Listed>, node: string) {
    exists i :: 0 <= i < |datasets| && datasets[i].nodeId == node
  }

  predicate ColumnResolves(datasets: seq<Listed>, r: Reference) {
    exists i :: 0 <= i < |datasets| && datasets[i].nodeId == r.nodeId && r.name in datasets[i].columns
  }

  predicate EdgeResolves(width: nat, datasets: seq<Listed>, r: Reference) {
    exists i :: 0 <= i < |datasets| && datasets[i].nodeId == r.nodeId && r.name in DatasetHeld(width, datasets[i])
  }

  predicate ComparisonOk(datasets: seq<Listed>, c: Comparison) {
    (forall a :: a in c.anchors ==> IsListed(datasets, a)) && forall r :: r in c.shared ==> ColumnResolves(datasets, r)
  }

  predicate GapOk(width: nat, datasets: seq<Listed>, g: Gap) {
    (forall a :: a in g.datasets ==> IsListed(datasets, a)) && forall r :: r in g.edges ==>
        EdgeResolves(width, datasets, r)
  }

  predicate DistinctDatasets(datasets: seq<Listed>) {
    forall i, j :: 0 <= i < j < |datasets| ==> datasets[i].nodeId != datasets[j].nodeId
  }

  function Names(datasets: seq<Listed>): set<string> {
    set ds | ds in datasets :: ds.nodeId
  }

  predicate DatasetsOk(width: nat, names: set<string>, final: bool, datasets: seq<Listed>) {
    forall ds :: ds in datasets ==> DatasetOk(width, names, final, ds)
  }

  predicate ComparisonsOk(datasets: seq<Listed>, comparisons: seq<Comparison>) {
    forall c :: c in comparisons ==> ComparisonOk(datasets, c)
  }

  predicate GapsOk(width: nat, datasets: seq<Listed>, gaps: seq<Gap>) {
    forall g :: g in gaps ==> GapOk(width, datasets, g)
  }

  // A draft may refer to what is not there; a final document may not.
  predicate DocumentOk(doc: Document, final: bool) {
    && FieldsOk(doc.edgeFields) && DistinctDatasets(doc.datasets)
    && DatasetsOk(|doc.edgeFields|, Names(doc.datasets), final, doc.datasets)
    && (final ==> ComparisonsOk(doc.datasets, doc.comparisons) && GapsOk(|doc.edgeFields|, doc.datasets, doc.gaps))
  }

  // The datasets by ID, the first of each, and the order they came in.
  ghost predicate ById(datasets: seq<Listed>, byId: map<string, Listed>, order: seq<string>) {
    && byId.Keys == Names(datasets) && (forall id :: id in order <==> id in byId)
    && (forall id :: id in byId ==> byId[id] in datasets && byId[id].nodeId == id)
    && (forall i: nat :: IsFirst(datasets, i) ==> datasets[i].nodeId in byId && byId[datasets[i].nodeId] == datasets[i])
  }

  // The first dataset with its ID.
  ghost predicate IsFirst(datasets: seq<Listed>, i: nat) {
    i < |datasets| && forall j :: 0 <= j < i ==> datasets[j].nodeId != datasets[i].nodeId
  }

  lemma FirstNext(datasets: seq<Listed>, ds: Listed, i: nat)
    ensures IsFirst(datasets + [ds], i) <==> IsFirst(datasets, i) || (i == |datasets| && ds.nodeId !in Names(datasets))
  {
    var more := datasets + [ds];
    assert more[|datasets|] == ds && forall j :: 0 <= j < |datasets| ==> more[j] == datasets[j];
    if ds.nodeId in Names(datasets) {
      var x :| x in datasets && x.nodeId == ds.nodeId;
      var j :| 0 <= j < |datasets| && datasets[j] == x;
      assert more[j].nodeId == ds.nodeId;
    } else {
      assert forall j :: 0 <= j < |datasets| ==> datasets[j] in datasets;
    }
  }

  method FirstOfEach(datasets: seq<Listed>)
    returns (findings: seq<Finding>, byId: map<string, Listed>, order: seq<string>)
    ensures HasErrors(findings) <==> !DistinctDatasets(datasets)
    ensures forall f :: f in findings <==> f == Finding(DuplicateDataset, Error) && !DistinctDatasets(datasets)
    ensures ById(datasets, byId, order)
  {
    findings, byId, order := [], map[], [];
    for n := 0 to |datasets|
      invariant HasErrors(findings) <==> !DistinctDatasets(datasets[..n])
      invariant forall f :: f in findings <==>
                            f == Finding(DuplicateDataset, Error) && !DistinctDatasets(datasets[..n])
      invariant ById(datasets[..n], byId, order)
    {
      var ds := datasets[n];
      assert datasets[..n + 1] == datasets[..n] + [ds];
      var more := If(ds.nodeId in byId, DuplicateDataset, Error);
      ErrorsConcat(findings, more);
      DistinctNext(datasets[..n], ds);
      forall i: nat {
        FirstNext(datasets[..n], ds, i);
      }
      findings := findings + more;
      if ds.nodeId !in byId {
        byId, order := byId[ds.nodeId := ds], order + [ds.nodeId];
      }
    }
    assert datasets[..|datasets|] == datasets;
  }

  lemma DistinctNext(datasets: seq<Listed>, ds: Listed)
    ensures DistinctDatasets(datasets + [ds]) <==> DistinctDatasets(datasets) && ds.nodeId !in Names(datasets)
  {
    var more := datasets + [ds];
    if DistinctDatasets(more) {
      forall x | x in datasets ensures x.nodeId != ds.nodeId {
        var i :| 0 <= i < |datasets| && datasets[i] == x;
        assert more[i] == x && more[|datasets|] == ds;
      }
      forall i, j | 0 <= i < j < |datasets| ensures datasets[i].nodeId != datasets[j].nodeId {
        assert more[i] == datasets[i] && more[j] == datasets[j];
      }
    }
    if DistinctDatasets(datasets) && ds.nodeId !in Names(datasets) {
      assert forall i :: 0 <= i < |datasets| ==> datasets[i] in datasets;
    }
  }

  // With distinct datasets, the one looked up is the one listed.
  lemma LookedUp(datasets: seq<Listed>, byId: map<string, Listed>, order: seq<string>, i: nat)
    requires ById(datasets, byId, order) && DistinctDatasets(datasets) && i < |datasets|
    ensures datasets[i].nodeId in byId && byId[datasets[i].nodeId] == datasets[i]
  {
    assert datasets[i] in datasets;
    var j :| 0 <= j < |datasets| && datasets[j] == byId[datasets[i].nodeId];
  }

  type HeldBy = map<string, set<string>>

  predicate EachOk(width: nat, names: set<string>, final: bool, byId: map<string, Listed>, order: seq<string>) {
    forall id :: id in order && id in byId ==> DatasetOk(width, names, final, byId[id])
  }

  ghost predicate EachReports(width: nat, names: set<string>, final: bool, byId: map<string, Listed>,
                              order: seq<string>, f: Finding)
    requires width > 0
  {
    exists id :: id in order && id in byId && DatasetReports(width, names, final, byId[id], f)
  }

  lemma EachReportsNext(width: nat, names: set<string>, final: bool, byId: map<string, Listed>, order: seq<string>,
                        id: string, f: Finding)
    requires width > 0 && id in byId
    ensures EachReports(width, names, final, byId, order + [id], f) <==>
            EachReports(width, names, final, byId, order, f) || DatasetReports(width, names, final, byId[id], f)
  {
    assert forall x :: x in order + [id] <==> x in order || x == id;
  }

  method CheckDatasets(width: nat, final: bool, byId: map<string, Listed>, order: seq<string>)
    returns (findings: seq<Finding>, held: HeldBy)
    requires width > 0 && forall id :: id in order ==> id in byId
    ensures HasErrors(findings) <==> !EachOk(width, byId.Keys, final, byId, order)
    ensures forall f :: f in findings <==> EachReports(width, byId.Keys, final, byId, order, f)
    ensures forall id :: id in held <==> id in order
    ensures forall id :: id in held ==> held[id] == DatasetHeld(width, byId[id])
  {
    findings, held := [], map[];
    for n := 0 to |order|
      invariant HasErrors(findings) <==> !EachOk(width, byId.Keys, final, byId, order[..n])
      invariant forall f :: f in findings <==> EachReports(width, byId.Keys, final, byId, order[..n], f)
      invariant forall id :: id in held <==> id in order[..n]
      invariant forall id :: id in held ==> id in byId && held[id] == DatasetHeld(width, byId[id])
    {
      assert order[..n + 1] == order[..n] + [order[n]];
      forall f {
        EachReportsNext(width, byId.Keys, final, byId, order[..n], order[n], f);
      }
      var more, ids := CheckDataset(width, byId.Keys, final, byId[order[n]]);
      ErrorsConcat(findings, more);
      findings, held := findings + more, held[order[n] := ids];
    }
    assert order[..|order|] == order;
  }

  predicate AllIn(nodes: seq<string>, names: set<string>) {
    forall a :: a in nodes ==> a in names
  }

  // `require_dataset` of each.
  method RequireDatasets(nodes: seq<string>, names: set<string>, final: bool) returns (findings: seq<Finding>)
    ensures HasErrors(findings) <==> final && !AllIn(nodes, names)
    ensures forall f :: f in findings <==> f == Finding(DanglingReference, Dangling(final)) && !AllIn(nodes, names)
  {
    findings := [];
    for n := 0 to |nodes|
      invariant HasErrors(findings) <==> final && !AllIn(nodes[..n], names)
      invariant forall f :: f in findings <==>
                            f == Finding(DanglingReference, Dangling(final)) && !AllIn(nodes[..n], names)
    {
      assert nodes[..n + 1] == nodes[..n] + [nodes[n]];
      var more := If(nodes[n] !in names, DanglingReference, Dangling(final));
      ErrorsConcat(findings, more);
      findings := findings + more;
    }
    assert nodes[..|nodes|] == nodes;
  }

  predicate ColumnsIn(shared: seq<Reference>, byId: map<string, Listed>) {
    forall r :: r in shared ==> r.nodeId in byId && r.name in byId[r.nodeId].columns
  }

  // What is reported of a column reference: its dataset is missing, or does not list the column.
  ghost predicate ColumnReports(r: Reference, byId: map<string, Listed>, final: bool, f: Finding) {
    if r.nodeId !in byId then f == Finding(DanglingReference, Dangling(final))
    else f == Finding(UnlistedColumn, Dangling(final)) && r.name !in byId[r.nodeId].columns
  }

  ghost predicate ColumnsReport(shared: seq<Reference>, byId: map<string, Listed>, final: bool, f: Finding) {
    exists r :: r in shared && ColumnReports(r, byId, final, f)
  }

  lemma ColumnsReportNext(shared: seq<Reference>, r: Reference, byId: map<string, Listed>, final: bool, f: Finding)
    ensures ColumnsReport(shared + [r], byId, final, f) <==>
            ColumnsReport(shared, byId, final, f) || ColumnReports(r, byId, final, f)
  {
    assert forall x :: x in shared + [r] <==> x in shared || x == r;
  }

  method RequireColumns(shared: seq<Reference>, byId: map<string, Listed>, final: bool) returns (findings: seq<Finding>)
    ensures HasErrors(findings) <==> final && !ColumnsIn(shared, byId)
    ensures forall f :: f in findings <==> ColumnsReport(shared, byId, final, f)
  {
    findings := [];
    for n := 0 to |shared|
      invariant HasErrors(findings) <==> final && !ColumnsIn(shared[..n], byId)
      invariant forall f :: f in findings <==> ColumnsReport(shared[..n], byId, final, f)
    {
      var r := shared[n];
      assert shared[..n + 1] == shared[..n] + [r];
      forall f {
        ColumnsReportNext(shared[..n], r, byId, final, f);
      }
      var more := if r.nodeId !in byId then If(true, DanglingReference, Dangling(final))
                  else If(r.name !in byId[r.nodeId].columns, UnlistedColumn, Dangling(final));
      ErrorsConcat(findings, more);
      findings := findings + more;
    }
    assert shared[..|shared|] == shared;
  }

  predicate EdgesIn(edges: seq<Reference>, held: HeldBy) {
    forall r :: r in edges ==> r.nodeId in held && r.name in held[r.nodeId]
  }

  method RequireEdges(edges: seq<Reference>, held: HeldBy, final: bool) returns (findings: seq<Finding>)
    ensures HasErrors(findings) <==> final && !EdgesIn(edges, held)
    ensures forall f :: f in findings <==> f == Finding(DanglingReference, Dangling(final)) && !EdgesIn(edges, held)
  {
    findings := [];
    for n := 0 to |edges|
      invariant HasErrors(findings) <==> final && !EdgesIn(edges[..n], held)
      invariant forall f :: f in findings <==>
                            f == Finding(DanglingReference, Dangling(final)) && !EdgesIn(edges[..n], held)
    {
      assert edges[..n + 1] == edges[..n] + [edges[n]];
      var more := If(!(edges[n].nodeId in held && edges[n].name in held[edges[n].nodeId]), DanglingReference,
                     Dangling(final));
      ErrorsConcat(findings, more);
      findings := findings + more;
    }
    assert edges[..|edges|] == edges;
  }

  predicate ComparisonsIn(comparisons: seq<Comparison>, byId: map<string, Listed>) {
    forall c :: c in comparisons ==> AllIn(c.anchors, byId.Keys) && ColumnsIn(c.shared, byId)
  }

  ghost predicate ComparisonReports(c: Comparison, byId: map<string, Listed>, final: bool, f: Finding) {
    || (f == Finding(DanglingReference, Dangling(final)) && !AllIn(c.anchors, byId.Keys))
    || ColumnsReport(c.shared, byId, final, f)
  }

  ghost predicate ComparisonsReport(comparisons: seq<Comparison>, byId: map<string, Listed>, final: bool, f: Finding) {
    exists c :: c in comparisons && ComparisonReports(c, byId, final, f)
  }

  lemma ComparisonsReportNext(comparisons: seq<Comparison>, c: Comparison, byId: map<string, Listed>, final: bool,
                              f: Finding)
    ensures ComparisonsReport(comparisons + [c], byId, final, f) <==>
            ComparisonsReport(comparisons, byId, final, f) || ComparisonReports(c, byId, final, f)
  {
    assert forall x :: x in comparisons + [c] <==> x in comparisons || x == c;
  }

  method CheckComparisons(comparisons: seq<Comparison>, byId: map<string, Listed>, final: bool)
    returns (findings: seq<Finding>)
    ensures HasErrors(findings) <==> final && !ComparisonsIn(comparisons, byId)
    ensures forall f :: f in findings <==> ComparisonsReport(comparisons, byId, final, f)
  {
    findings := [];
    for n := 0 to |comparisons|
      invariant HasErrors(findings) <==> final && !ComparisonsIn(comparisons[..n], byId)
      invariant forall f :: f in findings <==> ComparisonsReport(comparisons[..n], byId, final, f)
    {
      assert comparisons[..n + 1] == comparisons[..n] + [comparisons[n]];
      forall f {
        ComparisonsReportNext(comparisons[..n], comparisons[n], byId, final, f);
      }
      var anchors := RequireDatasets(comparisons[n].anchors, byId.Keys, final);
      var shared := RequireColumns(comparisons[n].shared, byId, final);
      ErrorsConcat(anchors, shared);
      ErrorsConcat(findings, anchors + shared);
      findings := findings + (anchors + shared);
    }
    assert comparisons[..|comparisons|] == comparisons;
  }

  predicate GapsIn(gaps: seq<Gap>, names: set<string>, held: HeldBy) {
    forall g :: g in gaps ==> AllIn(g.datasets, names) && EdgesIn(g.edges, held)
  }

  method CheckGaps(gaps: seq<Gap>, names: set<string>, held: HeldBy, final: bool) returns (findings: seq<Finding>)
    ensures HasErrors(findings) <==> final && !GapsIn(gaps, names, held)
    ensures forall f :: f in findings <==>
                        f == Finding(DanglingReference, Dangling(final)) && !GapsIn(gaps, names, held)
  {
    findings := [];
    for n := 0 to |gaps|
      invariant HasErrors(findings) <==> final && !GapsIn(gaps[..n], names, held)
      invariant forall f :: f in findings <==>
                            f == Finding(DanglingReference, Dangling(final)) && !GapsIn(gaps[..n], names, held)
    {
      assert gaps[..n + 1] == gaps[..n] + [gaps[n]];
      var datasets := RequireDatasets(gaps[n].datasets, names, final);
      var edges := RequireEdges(gaps[n].edges, held, final);
      ErrorsConcat(datasets, edges);
      ErrorsConcat(findings, datasets + edges);
      findings := findings + (datasets + edges);
    }
    assert gaps[..|gaps|] == gaps;
  }

  // Looking references up agrees with looking for them among the datasets.
  lemma ReferencesAgree(width: nat, datasets: seq<Listed>, byId: map<string, Listed>, order: seq<string>, held: HeldBy,
                        r: Reference)
    requires ById(datasets, byId, order) && DistinctDatasets(datasets) && held.Keys == byId.Keys
    requires forall id :: id in held ==> held[id] == DatasetHeld(width, byId[id])
    ensures r.nodeId in byId <==> IsListed(datasets, r.nodeId)
    ensures r.nodeId in byId && r.name in byId[r.nodeId].columns <==> ColumnResolves(datasets, r)
    ensures r.nodeId in held && r.name in held[r.nodeId] <==> EdgeResolves(width, datasets, r)
  {
    if r.nodeId in byId {
      var i :| 0 <= i < |datasets| && datasets[i] == byId[r.nodeId];
      assert datasets[i].nodeId == r.nodeId;
    }
    if i :| 0 <= i < |datasets| && datasets[i].nodeId == r.nodeId {
      LookedUp(datasets, byId, order, i);
      assert forall j :: 0 <= j < |datasets| && datasets[j].nodeId == r.nodeId ==> j == i;
    }
  }

  lemma AllAgree(width: nat, doc: Document, byId: map<string, Listed>, order: seq<string>, held: HeldBy)
    requires ById(doc.datasets, byId, order) && DistinctDatasets(doc.datasets) && held.Keys == byId.Keys
    requires forall id :: id in held ==> held[id] == DatasetHeld(width, byId[id])
    ensures ComparisonsIn(doc.comparisons, byId) <==> ComparisonsOk(doc.datasets, doc.comparisons)
    ensures GapsIn(doc.gaps, byId.Keys, held) <==> GapsOk(width, doc.datasets, doc.gaps)
  {
    forall r: Reference
      ensures r.nodeId in byId && r.name in byId[r.nodeId].columns <==> ColumnResolves(doc.datasets, r)
      ensures r.nodeId in held && r.name in held[r.nodeId] <==> EdgeResolves(width, doc.datasets, r)
    {
      ReferencesAgree(width, doc.datasets, byId, order, held, r);
    }
    forall node ensures node in byId <==> IsListed(doc.datasets, node) {
      ReferencesAgree(width, doc.datasets, byId, order, held, Reference(node, ""));
    }
    forall c | c in doc.comparisons
      ensures AllIn(c.anchors, byId.Keys) && ColumnsIn(c.shared, byId) <==> ComparisonOk(doc.datasets, c) {}
    forall g | g in doc.gaps
      ensures AllIn(g.datasets, byId.Keys) && EdgesIn(g.edges, held) <==> GapOk(width, doc.datasets, g) {}
  }

  lemma DatasetsAgree(width: nat, final: bool, datasets: seq<Listed>, byId: map<string, Listed>, order: seq<string>)
    requires ById(datasets, byId, order) && DistinctDatasets(datasets)
    ensures EachOk(width, byId.Keys, final, byId, order) <==> DatasetsOk(width, Names(datasets), final, datasets)
  {
    if EachOk(width, byId.Keys, final, byId, order) {
      forall ds | ds in datasets ensures DatasetOk(width, Names(datasets), final, ds) {
        var i :| 0 <= i < |datasets| && datasets[i] == ds;
        LookedUp(datasets, byId, order, i);
      }
    }
  }

  // ---------- what is reported ----------

  // The first dataset with an ID.
  ghost predicate FirstIs(datasets: seq<Listed>, node: string, i: nat) {
    IsFirst(datasets, i) && datasets[i].nodeId == node
  }

  ghost predicate DatasetsReport(width: nat, datasets: seq<Listed>, final: bool, f: Finding)
    requires width > 0
  {
    exists i: nat :: IsFirst(datasets, i) && DatasetReports(width, Names(datasets), final, datasets[i], f)
  }

  // A comparison refers to a missing dataset, or to a column its dataset does not list.
  ghost predicate ComparedReports(datasets: seq<Listed>, c: Comparison, final: bool, f: Finding) {
    || (f == Finding(DanglingReference, Dangling(final))
        && ((exists a :: a in c.anchors && a !in Names(datasets))
            || exists r :: r in c.shared && r.nodeId !in Names(datasets)))
    || (f == Finding(UnlistedColumn, Dangling(final))
        && exists r, i: nat :: r in c.shared && FirstIs(datasets, r.nodeId, i) && r.name !in datasets[i].columns)
  }

  ghost predicate HoldsEdge(width: nat, datasets: seq<Listed>, r: Reference) {
    exists i: nat :: FirstIs(datasets, r.nodeId, i) && r.name in DatasetHeld(width, datasets[i])
  }

  // A gap refers to a missing dataset, or to an edge its dataset does not hold.
  ghost predicate GapReports(width: nat, datasets: seq<Listed>, g: Gap, final: bool, f: Finding) {
    f == Finding(DanglingReference, Dangling(final))
    && ((exists a :: a in g.datasets && a !in Names(datasets))
        || exists r :: r in g.edges && !HoldsEdge(width, datasets, r))
  }

  // The rules and severities reported of a document.  With wrong edge fields nothing else is looked at; of
  // datasets with one ID the first counts.
  ghost predicate DocumentReports(doc: Document, final: bool, f: Finding)
    requires |doc.edgeFields| >= 2
  {
    || (f == Finding(DuplicateDataset, Error) && !DistinctDatasets(doc.datasets))
    || if !FieldsOk(doc.edgeFields) then f == Finding(EdgeFields, Error)
       else
         || DatasetsReport(|doc.edgeFields|, doc.datasets, final, f)
         || (exists c :: c in doc.comparisons && ComparedReports(doc.datasets, c, final, f))
         || (exists g :: g in doc.gaps && GapReports(|doc.edgeFields|, doc.datasets, g, final, f))
  }

  lemma {:induction false} FirstExists(datasets: seq<Listed>, n: nat) returns (i: nat)
    requires n < |datasets|
    ensures FirstIs(datasets, datasets[n].nodeId, i)
    decreases n
  {
    if m: nat :| m < n && datasets[m].nodeId == datasets[n].nodeId {
      i := FirstExists(datasets, m);
    } else {
      i := n;
    }
  }

  lemma LookedUpFirst(datasets: seq<Listed>, byId: map<string, Listed>, order: seq<string>, node: string)
    requires ById(datasets, byId, order)
    ensures node in byId <==> exists i: nat :: FirstIs(datasets, node, i)
    ensures forall i: nat :: FirstIs(datasets, node, i) ==> node in byId && byId[node] == datasets[i]
  {
    if node in byId {
      var n :| 0 <= n < |datasets| && datasets[n] == byId[node];
      var i := FirstExists(datasets, n);
    }
  }

  lemma EachIsFirst(width: nat, final: bool, datasets: seq<Listed>, byId: map<string, Listed>, order: seq<string>,
                    f: Finding)
    requires width > 0 && ById(datasets, byId, order)
    ensures EachReports(width, byId.Keys, final, byId, order, f) <==> DatasetsReport(width, datasets, final, f)
  {
    if id :| id in order && id in byId && DatasetReports(width, byId.Keys, final, byId[id], f) {
      LookedUpFirst(datasets, byId, order, id);
      var i: nat :| FirstIs(datasets, id, i);
      assert IsFirst(datasets, i) && DatasetReports(width, Names(datasets), final, datasets[i], f);
    }
    if i: nat :| IsFirst(datasets, i) && DatasetReports(width, Names(datasets), final, datasets[i], f) {
      assert datasets[i].nodeId in order && byId[datasets[i].nodeId] == datasets[i];
    }
  }

  lemma ColumnIsFirst(datasets: seq<Listed>, byId: map<string, Listed>, order: seq<string>, r: Reference)
    requires ById(datasets, byId, order)
    ensures r.nodeId in byId && r.name !in byId[r.nodeId].columns <==>
            exists i: nat :: FirstIs(datasets, r.nodeId, i) && r.name !in datasets[i].columns
  {
    LookedUpFirst(datasets, byId, order, r.nodeId);
  }

  lemma ComparisonIsFirst(datasets: seq<Listed>, byId: map<string, Listed>, order: seq<string>, c: Comparison,
                          final: bool, f: Finding)
    requires ById(datasets, byId, order)
    ensures ComparisonReports(c, byId, final, f) <==> ComparedReports(datasets, c, final, f)
  {
    forall r: Reference
      ensures r.nodeId in byId && r.name !in byId[r.nodeId].columns <==>
              exists i: nat :: FirstIs(datasets, r.nodeId, i) && r.name !in datasets[i].columns
    {
      ColumnIsFirst(datasets, byId, order, r);
    }
    if f == Finding(UnlistedColumn, Dangling(final)) {
      if r, i: nat :| r in c.shared && FirstIs(datasets, r.nodeId, i) && r.name !in datasets[i].columns {
        assert ColumnReports(r, byId, final, f);
      }
      if ColumnsReport(c.shared, byId, final, f) {
        var r :| r in c.shared && ColumnReports(r, byId, final, f);
        var i: nat :| FirstIs(datasets, r.nodeId, i) && r.name !in datasets[i].columns;
      }
    }
  }

  lemma EdgeIsFirst(width: nat, datasets: seq<Listed>, byId: map<string, Listed>, order: seq<string>, held: HeldBy,
                    r: Reference)
    requires ById(datasets, byId, order) && held.Keys == byId.Keys
    requires forall id :: id in held ==> held[id] == DatasetHeld(width, byId[id])
    ensures r.nodeId in held && r.name in held[r.nodeId] <==> HoldsEdge(width, datasets, r)
  {
    LookedUpFirst(datasets, byId, order, r.nodeId);
    if r.nodeId in held && r.name in held[r.nodeId] {
      var i: nat :| FirstIs(datasets, r.nodeId, i);
    }
  }

  lemma GapsAreFirst(width: nat, datasets: seq<Listed>, byId: map<string, Listed>, order: seq<string>, held: HeldBy,
                     gaps: seq<Gap>, final: bool, f: Finding)
    requires ById(datasets, byId, order) && held.Keys == byId.Keys
    requires forall id :: id in held ==> held[id] == DatasetHeld(width, byId[id])
    ensures f == Finding(DanglingReference, Dangling(final)) && !GapsIn(gaps, byId.Keys, held) <==>
            exists g :: g in gaps && GapReports(width, datasets, g, final, f)
  {
    forall r: Reference ensures r.nodeId in held && r.name in held[r.nodeId] <==> HoldsEdge(width, datasets, r) {
      EdgeIsFirst(width, datasets, byId, order, held, r);
    }
  }

  lemma ComparisonsAreFirst(datasets: seq<Listed>, byId: map<string, Listed>, order: seq<string>,
                            comparisons: seq<Comparison>, final: bool, f: Finding)
    requires ById(datasets, byId, order)
    ensures ComparisonsReport(comparisons, byId, final, f) <==>
            exists c :: c in comparisons && ComparedReports(datasets, c, final, f)
  {
    forall c | c in comparisons
      ensures ComparisonReports(c, byId, final, f) <==> ComparedReports(datasets, c, final, f)
    {
      ComparisonIsFirst(datasets, byId, order, c, final, f);
    }
  }

  lemma AllReported(doc: Document, final: bool, byId: map<string, Listed>, order: seq<string>, held: HeldBy,
                    first: seq<Finding>, datasets: seq<Finding>, comparisons: seq<Finding>, gaps: seq<Finding>)
    requires FieldsOk(doc.edgeFields) && ById(doc.datasets, byId, order) && held.Keys == byId.Keys
    requires forall id :: id in held ==> held[id] == DatasetHeld(|doc.edgeFields|, byId[id])
    requires forall f :: f in first <==> f == Finding(DuplicateDataset, Error) && !DistinctDatasets(doc.datasets)
    requires forall f :: f in datasets <==> EachReports(|doc.edgeFields|, byId.Keys, final, byId, order, f)
    requires forall f :: f in comparisons <==> ComparisonsReport(doc.comparisons, byId, final, f)
    requires forall f :: f in gaps <==>
                           f == Finding(DanglingReference, Dangling(final)) && !GapsIn(doc.gaps, byId.Keys, held)
    ensures forall f :: f in first + datasets + comparisons + gaps <==> DocumentReports(doc, final, f)
  {
    forall f ensures f in first + datasets + comparisons + gaps <==> DocumentReports(doc, final, f) {
      EachIsFirst(|doc.edgeFields|, final, doc.datasets, byId, order, f);
      ComparisonsAreFirst(doc.datasets, byId, order, doc.comparisons, final, f);
      GapsAreFirst(|doc.edgeFields|, doc.datasets, byId, order, held, doc.gaps, final, f);
    }
  }

  // `_references`: an error is found exactly when the document is not in order, and what is
  // reported is known rule by rule.
  method CheckDocument(doc: Document, final: bool) returns (findings: seq<Finding>)
    requires |doc.edgeFields| >= 2
    ensures HasErrors(findings) <==> !DocumentOk(doc, final)
    ensures forall f :: f in findings <==> DocumentReports(doc, final, f)
  {
    var byId, order;
    findings, byId, order := FirstOfEach(doc.datasets);
    if !FieldsOk(doc.edgeFields) {
      var more := If(true, EdgeFields, Error);
      ErrorsConcat(findings, more);
      return findings + more;
    }
    var width := |doc.edgeFields|;
    var datasets, held := CheckDatasets(width, final, byId, order);
    var comparisons := CheckComparisons(doc.comparisons, byId, final);
    var gaps := CheckGaps(doc.gaps, byId.Keys, held, final);
    if DistinctDatasets(doc.datasets) {
      assert held.Keys == byId.Keys;
      AllAgree(width, doc, byId, order, held);
      DatasetsAgree(width, final, doc.datasets, byId, order);
    }
    AllReported(doc, final, byId, order, held, findings, datasets, comparisons, gaps);
    ErrorsConcat(findings, datasets);
    ErrorsConcat(findings + datasets, comparisons);
    ErrorsConcat(findings + datasets + comparisons, gaps);
    return findings + datasets + comparisons + gaps;
  }
}
