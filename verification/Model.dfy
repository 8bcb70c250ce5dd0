// Datasets, entity definitions and the relationships between them.
module Model {
  import opened Order

  // A property of a definition that may be left unknown.
  datatype Claim = Yes | No | Unknown

  datatype Universe = Complete | Partial | UnknownUniverse

  datatype Definition = Definition(
    identityId: string,
    columns: seq<string>,
    universe: Universe,
    unique: Claim,
    total: Claim,
    conforms: Claim)

  datatype Dataset = Dataset(nodeId: string, definitions: seq<Definition>)

  datatype Multiplicity = OneToOne | OneToMany | ManyToOne | ManyToMany | UnknownMultiplicity

  datatype MatchExistence = Always | Optional | UnknownExistence

  datatype Direction = Direction(multiplicity: Multiplicity, existence: MatchExistence)

  // An endpoint is its own identity key (node, identity, columns).
  datatype Endpoint = Endpoint(nodeId: string, identityId: string, columns: seq<string>)

  datatype Relationship = Relationship(
    edgeId: string,
    a: Endpoint,
    b: Endpoint,
    aToB: Direction,
    bToA: Direction)
  {
    predicate Touches(node: string) { a.nodeId == node || b.nodeId == node }

    // The endpoint across from `node`; `b` for a relationship of a dataset with itself.
    function Opposite(node: string): Endpoint
      requires Touches(node)
    {
      if a.nodeId == node then b else a
    }

    predicate Joins(u: string, v: string) {
      (a.nodeId == u && b.nodeId == v) || (a.nodeId == v && b.nodeId == u)
    }
  }

  datatype Option<+T> = None | Some(value: T)

  function JoinedBy(parts: seq<string>, separator: string): string {
    if parts == [] then ""
    else if |parts| == 1 then parts[0]
    else parts[0] + separator + JoinedBy(parts[1..], separator)
  }

  function Texts(columns: seq<string>): seq<Key> {
    seq(|columns|, i requires 0 <= i < |columns| => Text(columns[i]))
  }

  function EndpointKey(e: Endpoint): Key {
    Tuple([Text(e.nodeId), Text(e.identityId), Tuple(Texts(e.columns))])
  }

  lemma EndpointKeyInjective(e: Endpoint, f: Endpoint)
    requires EndpointKey(e) == EndpointKey(f)
    ensures e == f
  {
    var xs, ys := Texts(e.columns), Texts(f.columns);
    assert EndpointKey(e).items[2] == Tuple(xs) && EndpointKey(f).items[2] == Tuple(ys);
    assert EndpointKey(e).items[0] == Text(e.nodeId) && EndpointKey(e).items[1] == Text(e.identityId);
    assert EndpointKey(f).items[0] == Text(f.nodeId) && EndpointKey(f).items[1] == Text(f.identityId);
    forall i | 0 <= i < |e.columns| ensures e.columns[i] == f.columns[i] {
      assert xs[i] == ys[i];
    }
  }
}
