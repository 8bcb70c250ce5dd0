// Relationships derived from entity definitions (`model/derivation.py`), kept in canonical
// orientation (`model/relationship.py`).
module Derivation {
  import opened Order
  import opened Model

  // ---------- claims ----------

  function MultiplicityBetween(sourceUnique: Claim, targetUnique: Claim): Multiplicity {
    match (sourceUnique, targetUnique)
    case (Yes, Yes) => OneToOne
    case (No, Yes) => ManyToOne
    case (Yes, No) => OneToMany
    case (No, No) => ManyToMany
    case _ => UnknownMultiplicity
  }

  // `EntityDefinition.conforming`
  function Conforming(d: Definition): Claim {
    if d.universe == Complete || d.conforms == Yes then Yes
    else if d.conforms == No then No
    else Unknown
  }

  // Whether the key values of `source` are all among those of `target`.
  function Contained(source: Definition, target: Definition): Claim {
    if Conforming(source) == Yes && target.universe == Complete then Yes
    else if source.universe == Complete && target.universe == Partial then No
    else Unknown
  }

  function DerivedExistence(source: Definition, target: Definition): MatchExistence {
    var containment := Contained(source, target);
    if source.total == No || containment == No then Optional
    else if source.total == Yes && containment == Yes then Always
    else UnknownExistence
  }

  function DerivedDirection(source: Definition, target: Definition): Direction {
    Direction(MultiplicityBetween(source.unique, target.unique), DerivedExistence(source, target))
  }

  // ---------- edge IDs ----------

  function CanonicalEndpoints(a: Endpoint, b: Endpoint): (Endpoint, Endpoint) {
    if Leq(EndpointKey(a), EndpointKey(b)) then (a, b) else (b, a)
  }

  // `_side`
  function Side(e: Endpoint): string {
    e.nodeId + ":" + e.identityId + ":" + JoinedBy(e.columns, "+")
  }

  function EdgeIdFor(a: Endpoint, b: Endpoint): string {
    var (left, right) := CanonicalEndpoints(a, b);
    Side(left) + "__" + Side(right)
  }

  // ---------- canonical orientation ----------

  function Canonical(r: Relationship): Relationship {
    if Leq(EndpointKey(r.a), EndpointKey(r.b)) then r
    else Relationship(r.edgeId, r.b, r.a, r.bToA, r.aToB)
  }

  // The same relationship read from its other end.
  function Flipped(r: Relationship): Relationship {
    Relationship(r.edgeId, r.b, r.a, r.bToA, r.aToB)
  }

  ghost predicate LeavesWith(r: Relationship, e: Endpoint, claims: Direction) {
    (r.a == e && r.aToB == claims) || (r.b == e && r.bToA == claims)
  }

  // Orienting a relationship changes neither its ends nor what is claimed when leaving either, and
  // both readings of it end up the same, in key order.
  lemma CanonicalOrientation(r: Relationship)
    ensures var c := Canonical(r);
            && Leq(EndpointKey(c.a), EndpointKey(c.b)) && {c.a, c.b} == {r.a, r.b} && c.edgeId == r.edgeId
            && (forall e, claims :: LeavesWith(c, e, claims) <==> LeavesWith(r, e, claims))
            && EdgeIdFor(c.a, c.b) == EdgeIdFor(r.a, r.b)
    ensures r.a != r.b ==> Canonical(Flipped(r)) == Canonical(r)
    ensures Canonical(Canonical(r)) == Canonical(r)
  {
    Total(EndpointKey(r.a), EndpointKey(r.b));
    if EndpointKey(r.a) == EndpointKey(r.b) { EndpointKeyInjective(r.a, r.b); }
  }

  lemma EdgeIdSymmetric(a: Endpoint, b: Endpoint)
    ensures EdgeIdFor(a, b) == EdgeIdFor(b, a)
  {
    Total(EndpointKey(a), EndpointKey(b));
    if EndpointKey(a) == EndpointKey(b) { EndpointKeyInjective(a, b); }
  }

  // A relationship record under construction.
  class JoinRelationship {
    var edgeId: string
    var endpointA: Endpoint
    var endpointB: Endpoint
    var aToB: Direction
    var bToA: Direction

    constructor (edgeId: string, endpointA: Endpoint, endpointB: Endpoint, aToB: Direction, bToA: Direction)
      ensures Value() == Relationship(edgeId, endpointA, endpointB, aToB, bToA)
    {
      this.edgeId, this.endpointA, this.endpointB := edgeId, endpointA, endpointB;
      this.aToB, this.bToA := aToB, bToA;
    }

    function Value(): Relationship
      reads this
    {
      Relationship(edgeId, endpointA, endpointB, aToB, bToA)
    }

    // Swaps the ends into key order; rejects an edge ID that is not the canonical one.
    method Canonicalize() returns (accepted: bool)
      modifies this
      ensures Value() == Canonical(old(Value()))
      ensures accepted <==> old(edgeId) == EdgeIdFor(old(endpointA), old(endpointB))
    {
      var originalA := endpointA;
      Total(EndpointKey(endpointA), EndpointKey(endpointB));
      var ends := CanonicalEndpoints(endpointA, endpointB);
      if EndpointKey(ends.0) != EndpointKey(originalA) {
        aToB, bToA := bToA, aToB;
      } else {
        EndpointKeyInjective(ends.0, originalA);
      }
      endpointA := ends.0;
      endpointB := ends.1;
      EdgeIdSymmetric(ends.0, ends.1);
      accepted := edgeId == EdgeIdFor(endpointA, endpointB);
    }
  }

  // ---------- deriving ----------

  // A definition on its dataset.
  datatype Occurrence = Occurrence(nodeId: string, definition: Definition)

  function EndpointOf(o: Occurrence): Endpoint {
    Endpoint(o.nodeId, o.definition.identityId, o.definition.columns)
  }

  function OccurrenceKey(o: Occurrence): Key { EndpointKey(EndpointOf(o)) }

  function EdgeIdKey(r: Relationship): Key { Text(r.edgeId) }

  function TextKey(s: string): Key { Text(s) }

  function Related(s: Occurrence, t: Occurrence): Relationship {
    Relationship(
      EdgeIdFor(EndpointOf(s), EndpointOf(t)), EndpointOf(s), EndpointOf(t),
      DerivedDirection(s.definition, t.definition), DerivedDirection(t.definition, s.definition))
  }

  function OccurrencesOn(node: Dataset): set<Occurrence> {
    set d | d in node.definitions :: Occurrence(node.nodeId, d)
  }

  function Occurrences(nodes: seq<Dataset>): set<Occurrence> {
    set n, o | n in nodes && o in OccurrencesOn(n) :: o
  }

  ghost predicate DistinctEndpoints(os: set<Occurrence>) {
    Distinguishes(OccurrenceKey, os)
  }

  // What dataset and snapshot validation require: dataset IDs are unique, and so are definitions
  // within a dataset.
  ghost predicate ValidNodes(nodes: seq<Dataset>) {
    && (forall i, j :: 0 <= i < j < |nodes| ==> nodes[i].nodeId != nodes[j].nodeId)
    && (forall n, i, j :: n in nodes && 0 <= i < j < |n.definitions| ==>
          n.definitions[i].identityId != n.definitions[j].identityId
          || n.definitions[i].columns != n.definitions[j].columns)
  }

  lemma ValidNodesDistinct(nodes: seq<Dataset>)
    requires ValidNodes(nodes)
    ensures DistinctEndpoints(Occurrences(nodes))
  {
    forall s, t | s in Occurrences(nodes) && t in Occurrences(nodes) && OccurrenceKey(s) == OccurrenceKey(t)
      ensures s == t
    {
      EndpointKeyInjective(EndpointOf(s), EndpointOf(t));
      var m :| m in nodes && s in OccurrencesOn(m);
      var n :| n in nodes && t in OccurrencesOn(n);
      assert m == n;
    }
  }

  function OfIdentity(os: set<Occurrence>, identity: string): set<Occurrence> {
    set o | o in os && o.definition.identityId == identity
  }

  function IdentitiesOf(os: set<Occurrence>): set<string> {
    set o | o in os :: o.definition.identityId
  }

  // Every two members in order (`itertools.combinations(members, 2)`).
  function WithEach(s: Occurrence, others: seq<Occurrence>): seq<(Occurrence, Occurrence)> {
    seq(|others|, i requires 0 <= i < |others| => (s, others[i]))
  }

  function Combinations(members: seq<Occurrence>): seq<(Occurrence, Occurrence)> {
    if members == [] then [] else WithEach(members[0], members[1..]) + Combinations(members[1..])
  }

  function RelatedAll(pairs: seq<(Occurrence, Occurrence)>): seq<Relationship> {
    seq(|pairs|, i requires 0 <= i < |pairs| => Related(pairs[i].0, pairs[i].1))
  }

  lemma RelatedAllConcat(r: seq<(Occurrence, Occurrence)>, s: seq<(Occurrence, Occurrence)>)
    ensures RelatedAll(r + s) == RelatedAll(r) + RelatedAll(s)
  {}

  ghost predicate Before(s: Occurrence, t: Occurrence) {
    s != t && s.definition.identityId == t.definition.identityId && Leq(OccurrenceKey(s), OccurrenceKey(t))
  }

  function MembersOf(os: set<Occurrence>, identity: string): seq<Occurrence>
    requires DistinctEndpoints(os)
  {
    Sorted(OfIdentity(os, identity), OccurrenceKey)
  }

  function PairsOf(os: set<Occurrence>, identities: seq<string>): seq<(Occurrence, Occurrence)>
    requires DistinctEndpoints(os)
  {
    if identities == [] then []
    else PairsOf(os, identities[..|identities| - 1]) + Combinations(MembersOf(os, identities[|identities| - 1]))
  }

  lemma TextKeyDistinguishes(s: set<string>)
    ensures Distinguishes(TextKey, s)
  {}

  // The derived relationships depend on the definitions alone, not on any order they come in.
  function Derived(os: set<Occurrence>): seq<Relationship>
    requires DistinctEndpoints(os)
  {
    TextKeyDistinguishes(IdentitiesOf(os));
    StablySorted(RelatedAll(PairsOf(os, Sorted(IdentitiesOf(os), TextKey))), EdgeIdKey)
  }

  // ---------- what the loops fill in ----------

  ghost predicate Lists(list: seq<Occurrence>, os: set<Occurrence>) {
    NoDuplicates(list) && forall o :: o in list <==> o in os
  }

  ghost predicate Grouped(byIdentity: map<string, seq<Occurrence>>, os: set<Occurrence>) {
    && byIdentity.Keys == IdentitiesOf(os)
    && forall id {:trigger OfIdentity(os, id)} :: id in byIdentity ==> Lists(byIdentity[id], OfIdentity(os, id))
  }

  lemma GroupedNext(byIdentity: map<string, seq<Occurrence>>, os: set<Occurrence>, o: Occurrence)
    requires Grouped(byIdentity, os) && o !in os
    ensures var id := o.definition.identityId;
            Grouped(byIdentity[id := (if id in byIdentity then byIdentity[id] else []) + [o]], os + {o})
  {
    var id := o.definition.identityId;
    var before := if id in byIdentity then byIdentity[id] else [];
    var after := byIdentity[id := before + [o]];
    assert after.Keys == IdentitiesOf(os + {o});
    assert Lists(before, OfIdentity(os, id)) by {
      if id !in byIdentity {
        assert id !in IdentitiesOf(os);
        assert OfIdentity(os, id) == {};
      }
    }
    assert o !in OfIdentity(os, id);
    assert o !in before;
    assert Lists(before + [o], OfIdentity(os + {o}, id));
    forall x | x in after ensures Lists(after[x], OfIdentity(os + {o}, x)) {
      if x != id { assert OfIdentity(os + {o}, x) == OfIdentity(os, x); }
    }
  }

  // The occurrences of the first `i` datasets and the first `j` definitions of the next.
  function Seen(nodes: seq<Dataset>, i: nat, j: nat): set<Occurrence>
    requires i <= |nodes| && (i < |nodes| ==> j <= |nodes[i].definitions|) && (i == |nodes| ==> j == 0)
  {
    Occurrences(nodes[..i])
    + if i < |nodes| then OccurrencesOn(nodes[i].(definitions := nodes[i].definitions[..j])) else {}
  }

  lemma SeenNext(nodes: seq<Dataset>, i: nat, j: nat)
    requires ValidNodes(nodes) && i < |nodes| && j < |nodes[i].definitions|
    ensures Occurrence(nodes[i].nodeId, nodes[i].definitions[j]) !in Seen(nodes, i, j)
    ensures Seen(nodes, i, j + 1) == Seen(nodes, i, j) + {Occurrence(nodes[i].nodeId, nodes[i].definitions[j])}
  {
    var n := nodes[i];
    assert n in nodes;
    assert n.definitions[..j + 1] == n.definitions[..j] + [n.definitions[j]];
    assert forall m :: m in nodes[..i] ==> m.nodeId != n.nodeId;
  }

  lemma SeenAll(nodes: seq<Dataset>, i: nat)
    requires i < |nodes|
    ensures Seen(nodes, i, |nodes[i].definitions|) == Seen(nodes, i + 1, 0)
  {
    var n := nodes[i];
    assert nodes[..i + 1] == nodes[..i] + [n];
    assert n.(definitions := n.definitions[..|n.definitions|]) == n;
    assert forall m :: m in nodes[..i + 1] <==> m in nodes[..i] || m == n;
  }

  method GroupByIdentity(nodes: seq<Dataset>) returns (byIdentity: map<string, seq<Occurrence>>)
    requires ValidNodes(nodes)
    ensures Grouped(byIdentity, Occurrences(nodes))
  {
    byIdentity := map[];
    assert Seen(nodes, 0, 0) == {};
    for i := 0 to |nodes|
      invariant Grouped(byIdentity, Seen(nodes, i, 0))
    {
      for j := 0 to |nodes[i].definitions|
        invariant Grouped(byIdentity, Seen(nodes, i, j))
      {
        var o := Occurrence(nodes[i].nodeId, nodes[i].definitions[j]);
        SeenNext(nodes, i, j);
        GroupedNext(byIdentity, Seen(nodes, i, j), o);
        var id := o.definition.identityId;
        byIdentity := byIdentity[id := (if id in byIdentity then byIdentity[id] else []) + [o]];
      }
      SeenAll(nodes, i);
    }
    assert nodes[..|nodes|] == nodes;
    assert Seen(nodes, |nodes|, 0) == Occurrences(nodes);
  }

  // One relationship record, accepted as it is because its ends come in key order.
  method Relate(s: Occurrence, t: Occurrence) returns (r: Relationship)
    requires Leq(OccurrenceKey(s), OccurrenceKey(t))
    ensures r == Related(s, t)
  {
    var record := new JoinRelationship(
      EdgeIdFor(EndpointOf(s), EndpointOf(t)), EndpointOf(s), EndpointOf(t),
      DerivedDirection(s.definition, t.definition), DerivedDirection(t.definition, s.definition));
    var accepted := record.Canonicalize();
    assert accepted;
    r := record.Value();
  }

  method RelateWith(s: Occurrence, others: seq<Occurrence>) returns (relationships: seq<Relationship>)
    requires forall t :: t in others ==> Leq(OccurrenceKey(s), OccurrenceKey(t))
    ensures relationships == RelatedAll(WithEach(s, others))
  {
    relationships := [];
    for j := 0 to |others|
      invariant relationships == RelatedAll(WithEach(s, others[..j]))
    {
      var r := Relate(s, others[j]);
      relationships := relationships + [r];
    }
    assert others[..|others|] == others;
  }

  lemma CombinationsNext(members: seq<Occurrence>, i: nat)
    requires i < |members|
    ensures RelatedAll(Combinations(members[i..]))
         == RelatedAll(WithEach(members[i], members[i + 1..])) + RelatedAll(Combinations(members[i + 1..]))
  {
    assert members[i..][1..] == members[i + 1..];
    RelatedAllConcat(WithEach(members[i], members[i + 1..]), Combinations(members[i + 1..]));
  }

  // The relationships of one identity, its members in key order.
  method RelateMembers(members: seq<Occurrence>) returns (relationships: seq<Relationship>)
    requires Ascending(members, OccurrenceKey)
    ensures relationships == RelatedAll(Combinations(members))
  {
    relationships := [];
    assert members[0..] == members;
    for i := 0 to |members|
      invariant relationships + RelatedAll(Combinations(members[i..])) == RelatedAll(Combinations(members))
    {
      var related := RelateWith(members[i], members[i + 1..]);
      CombinationsNext(members, i);
      ghost var rest := RelatedAll(Combinations(members[i + 1..]));
      assert relationships + (related + rest) == (relationships + related) + rest;
      relationships := relationships + related;
    }
  }

  method InKeyOrder(list: seq<Occurrence>, ghost os: set<Occurrence>, ghost id: string)
    returns (members: seq<Occurrence>)
    requires DistinctEndpoints(os) && Lists(list, OfIdentity(os, id))
    ensures members == MembersOf(os, id) && Ascending(members, OccurrenceKey)
  {
    assert (set o | o in list) == OfIdentity(os, id);
    members := Sorted((set o | o in list), OccurrenceKey);
  }

  lemma PairsNext(os: set<Occurrence>, identities: seq<string>, n: nat)
    requires DistinctEndpoints(os) && n < |identities|
    ensures RelatedAll(PairsOf(os, identities[..n + 1]))
         == RelatedAll(PairsOf(os, identities[..n])) + RelatedAll(Combinations(MembersOf(os, identities[n])))
  {
    assert identities[..n + 1][..n] == identities[..n];
    RelatedAllConcat(PairsOf(os, identities[..n]), Combinations(MembersOf(os, identities[n])));
  }

  // `derive_relationships`
  method DeriveRelationships(nodes: seq<Dataset>) returns (relationships: seq<Relationship>)
    requires ValidNodes(nodes)
    ensures DistinctEndpoints(Occurrences(nodes)) && relationships == Derived(Occurrences(nodes))
  {
    ghost var os := Occurrences(nodes);
    ValidNodesDistinct(nodes);
    var byIdentity := GroupByIdentity(nodes);
    TextKeyDistinguishes(byIdentity.Keys);
    var identities := Sorted(byIdentity.Keys, TextKey);
    relationships := [];
    for n := 0 to |identities|
      invariant relationships == RelatedAll(PairsOf(os, identities[..n]))
    {
      assert identities[n] in identities;
      var members := InKeyOrder(byIdentity[identities[n]], os, identities[n]);
      var combined := RelateMembers(members);
      PairsNext(os, identities, n);
      relationships := relationships + combined;
    }
    assert identities[..|identities|] == identities;
    relationships := StablySorted(relationships, EdgeIdKey);
  }
}
