// What derived claims mean: the data that fits the definitions, and what the claims say about it.
module DataSemantics {
  import opened Model
  import opened Derivation

  type Value = string

  // One record of a dataset: the key values of its definitions, absent where the key is null.
  type Record = map<Endpoint, Value>

  // The population of every logical entity and the records of every dataset.
  datatype World = World(population: string -> set<Value>, records: string -> seq<Record>)

  function Records(w: World, o: Occurrence): seq<Record> { w.records(o.nodeId) }

  ghost predicate IsRecord(w: World, o: Occurrence, i: nat) { i < |Records(w, o)| }

  ghost predicate Holds(w: World, o: Occurrence, i: nat, v: Value) {
    IsRecord(w, o, i) && EndpointOf(o) in Records(w, o)[i] && Records(w, o)[i][EndpointOf(o)] == v
  }

  ghost predicate HasKey(w: World, o: Occurrence, i: nat) { exists v :: Holds(w, o, i, v) }

  ghost predicate Populates(w: World, o: Occurrence, v: Value) {
    v in w.population(o.definition.identityId)
  }

  ghost predicate IsUnique(w: World, o: Occurrence) {
    forall i: nat, j: nat, v :: Holds(w, o, i, v) && Holds(w, o, j, v) ==> i == j
  }

  ghost predicate IsTotal(w: World, o: Occurrence) {
    forall i: nat :: IsRecord(w, o, i) ==> HasKey(w, o, i)
  }

  ghost predicate Conforms(w: World, o: Occurrence) {
    forall i: nat, v :: Holds(w, o, i, v) ==> Populates(w, o, v)
  }

  ghost predicate IsHeld(w: World, o: Occurrence, v: Value) { exists i: nat :: Holds(w, o, i, v) }

  ghost predicate Covers(w: World, o: Occurrence) {
    forall v :: Populates(w, o, v) ==> IsHeld(w, o, v)
  }

  // What a definition asserts is so; a complete definition conforms by definition.
  ghost predicate Fits(w: World, o: Occurrence) {
    var d := o.definition;
    && (d.unique == Yes ==> IsUnique(w, o))
    && (d.total == Yes ==> IsTotal(w, o))
    && (d.conforms == Yes || d.universe == Complete ==> Conforms(w, o))
    && (d.universe == Complete ==> Covers(w, o))
  }

  // What a definition denies is not so, conformity left aside.
  ghost predicate Lacking(w: World, o: Occurrence) {
    var d := o.definition;
    && (d.unique == No ==> !IsUnique(w, o))
    && (d.total == No ==> !IsTotal(w, o))
    && (d.universe == Partial ==> !Covers(w, o))
  }

  // What a definition denies is not so.
  ghost predicate Fails(w: World, o: Occurrence) {
    Lacking(w, o) && (o.definition.conforms == No ==> !Conforms(w, o))
  }

  // Data as two definitions describe it, in what they assert and in what they deny.
  ghost predicate Describe(w: World, s: Occurrence, t: Occurrence) {
    Fits(w, s) && Fits(w, t) && Fails(w, s) && Fails(w, t)
  }

  // Dataset validation refuses a complete definition that does not conform.
  predicate Coherent(d: Definition) { !(d.universe == Complete && d.conforms == No) }

  // ---------- the claims ----------

  ghost predicate Match(w: World, s: Occurrence, t: Occurrence, i: nat, j: nat) {
    exists v :: Holds(w, s, i, v) && Holds(w, t, j, v)
  }

  ghost predicate IsMatched(w: World, s: Occurrence, t: Occurrence, i: nat) { exists j: nat :: Match(w, s, t, i, j) }

  ghost predicate EveryRecordMatches(w: World, s: Occurrence, t: Occurrence) {
    forall i: nat :: IsRecord(w, s, i) ==> IsMatched(w, s, t, i)
  }

  ghost predicate AtMostOneMatch(w: World, s: Occurrence, t: Occurrence) {
    forall i: nat, j: nat, k: nat :: Match(w, s, t, i, j) && Match(w, s, t, i, k) ==> j == k
  }

  predicate ToOne(m: Multiplicity) { m == OneToOne || m == ManyToOne }

  predicate FromOne(m: Multiplicity) { m == OneToOne || m == OneToMany }

  lemma SameValue(w: World, o: Occurrence, i: nat, v: Value, u: Value)
    requires Holds(w, o, i, v) && Holds(w, o, i, u)
    ensures u == v
  {}

  lemma UniqueMatches(w: World, s: Occurrence, t: Occurrence)
    requires IsUnique(w, t)
    ensures AtMostOneMatch(w, s, t)
  {
    forall i: nat, j: nat, k: nat | Match(w, s, t, i, j) && Match(w, s, t, i, k) ensures j == k {
      var v :| Holds(w, s, i, v) && Holds(w, t, j, v);
      var u :| Holds(w, s, i, u) && Holds(w, t, k, u);
      SameValue(w, s, i, v, u);
    }
  }

  lemma ContainedMatches(w: World, s: Occurrence, t: Occurrence)
    requires IsTotal(w, s) && Conforms(w, s) && Covers(w, t) && s.definition.identityId == t.definition.identityId
    ensures EveryRecordMatches(w, s, t)
  {
    forall i: nat | IsRecord(w, s, i) ensures IsMatched(w, s, t, i) {
      assert HasKey(w, s, i);
      var v :| Holds(w, s, i, v);
      assert Populates(w, s, v) && Populates(w, t, v);
      var j: nat :| Holds(w, t, j, v);
      assert Match(w, s, t, i, j);
    }
  }

  // Every derived claim is true of all data that fits the two definitions.
  lemma ClaimsHold(w: World, s: Occurrence, t: Occurrence)
    requires Fits(w, s) && Fits(w, t) && s.definition.identityId == t.definition.identityId
    ensures var claims := DerivedDirection(s.definition, t.definition);
            && (claims.existence == Always ==> EveryRecordMatches(w, s, t))
            && (ToOne(claims.multiplicity) ==> AtMostOneMatch(w, s, t))
            && (FromOne(claims.multiplicity) ==> AtMostOneMatch(w, t, s))
  {
    var claims := DerivedDirection(s.definition, t.definition);
    if claims.existence == Always { ContainedMatches(w, s, t); }
    if ToOne(claims.multiplicity) { UniqueMatches(w, s, t); }
    if FromOne(claims.multiplicity) { UniqueMatches(w, t, s); }
  }

  // Where the source is indeed not total or the target partial, an optional match has an unmatched record.
  lemma OptionalHasUnmatched(w: World, s: Occurrence, t: Occurrence)
    requires Fits(w, s) && Fits(w, t) && s.definition.identityId == t.definition.identityId
    requires (s.definition.total == No ==> !IsTotal(w, s)) && (t.definition.universe == Partial ==> !Covers(w, t))
    requires DerivedExistence(s.definition, t.definition) == Optional
    ensures !EveryRecordMatches(w, s, t)
  {
    if s.definition.total == No {
      var i: nat :| IsRecord(w, s, i) && !HasKey(w, s, i);
      assert !IsMatched(w, s, t, i);
    } else {
      var v :| Populates(w, t, v) && forall j: nat :: !Holds(w, t, j, v);
      assert Populates(w, s, v);
      ValueUnmatched(w, s, t, v);
    }
  }

  // A value on one side only leaves its record unmatched.
  lemma ValueUnmatched(w: World, s: Occurrence, t: Occurrence, v: Value)
    requires (exists i: nat :: Holds(w, s, i, v)) && forall j: nat :: !Holds(w, t, j, v)
    ensures !EveryRecordMatches(w, s, t)
  {
    var i: nat :| Holds(w, s, i, v);
    forall j: nat, u | Holds(w, s, i, u) ensures !Holds(w, t, j, u) {
      SameValue(w, s, i, v, u);
    }
    assert IsRecord(w, s, i) && !IsMatched(w, s, t, i);
  }

  // ---------- whether anything stronger could be derived: samples of described data ----------

  const POPULATION: set<Value> := {"a", "b"}

  // One record for each value, and perhaps one without a key.
  datatype Column = Column(values: seq<Value>, keyless: bool)

  function ColumnRecords(e: Endpoint, c: Column): seq<Record> {
    seq(|c.values|, i requires 0 <= i < |c.values| => map[e := c.values[i]]) + if c.keyless then [map[]] else []
  }

  function WorldOf(s: Occurrence, t: Occurrence, c: Column, d: Column): World {
    World(_ => POPULATION,
          node => if node == s.nodeId then ColumnRecords(EndpointOf(s), c)
                  else if node == t.nodeId then ColumnRecords(EndpointOf(t), d) else [])
  }

  // The records of `o` are those of the column.
  ghost predicate Shows(w: World, o: Occurrence, c: Column) {
    && (forall i: nat, v :: Holds(w, o, i, v) <==> i < |c.values| && c.values[i] == v)
    && (forall i: nat :: IsRecord(w, o, i) <==> i < |c.values| + if c.keyless then 1 else 0)
    && (forall v :: Populates(w, o, v) <==> v in POPULATION)
  }

  lemma WorldShows(s: Occurrence, t: Occurrence, c: Column, d: Column)
    requires s.nodeId != t.nodeId
    ensures Shows(WorldOf(s, t, c, d), s, c) && Shows(WorldOf(s, t, c, d), t, d)
  {}

  // A column as the definition describes it.
  ghost predicate Suits(d: Definition, c: Column) {
    && (d.unique == Yes ==> forall i, j :: 0 <= i < j < |c.values| ==> c.values[i] != c.values[j])
    && (d.unique == No ==> exists i, j :: 0 <= i < j < |c.values| && c.values[i] == c.values[j])
    && (d.total == Yes ==> !c.keyless) && (d.total == No ==> c.keyless)
    && (Conforming(d) == Yes ==> forall v :: v in c.values ==> v in POPULATION)
    && (Conforming(d) == No ==> exists v :: v in c.values && v !in POPULATION)
    && (d.universe == Complete ==> "a" in c.values && "b" in c.values)
    && (d.universe == Partial ==> "a" !in c.values || "b" !in c.values)
  }

  lemma SuitableFits(w: World, o: Occurrence, c: Column)
    requires Shows(w, o, c) && Suits(o.definition, c)
    ensures Fits(w, o)
  {
    var d := o.definition;
    if d.total == Yes {
      forall i: nat | IsRecord(w, o, i) ensures HasKey(w, o, i) {
        assert Holds(w, o, i, c.values[i]);
      }
    }
    if d.universe == Complete {
      forall v | Populates(w, o, v) ensures IsHeld(w, o, v) {
        var i :| 0 <= i < |c.values| && c.values[i] == v;
        assert Holds(w, o, i, v);
      }
    }
  }

  lemma SuitableFails(w: World, o: Occurrence, c: Column)
    requires Shows(w, o, c) && Suits(o.definition, c) && Coherent(o.definition)
    ensures Fails(w, o)
  {
    var d := o.definition;
    if d.unique == No {
      var i, j :| 0 <= i < j < |c.values| && c.values[i] == c.values[j];
      assert Holds(w, o, i, c.values[i]) && Holds(w, o, j, c.values[i]);
    }
    if d.total == No {
      var i := |c.values|;
      assert IsRecord(w, o, i) && forall v :: !Holds(w, o, i, v);
    }
    if d.conforms == No {
      var i :| 0 <= i < |c.values| && c.values[i] !in POPULATION;
      assert Holds(w, o, i, c.values[i]);
    }
    if d.universe == Partial {
      var v := if "a" in c.values then "b" else "a";
      assert Populates(w, o, v) && forall i: nat :: !Holds(w, o, i, v);
    }
  }

  lemma SuitableDescribe(s: Occurrence, t: Occurrence, c: Column, d: Column) returns (w: World)
    requires s.nodeId != t.nodeId && Suits(s.definition, c) && Suits(t.definition, d)
    ensures Shows(w, s, c) && Shows(w, t, d) && Fits(w, s) && Fits(w, t)
    ensures Coherent(s.definition) && Coherent(t.definition) ==> Describe(w, s, t)
  {
    w := WorldOf(s, t, c, d);
    WorldShows(s, t, c, d);
    SuitableFits(w, s, c);
    SuitableFits(w, t, d);
    if Coherent(s.definition) && Coherent(t.definition) {
      SuitableFails(w, s, c);
      SuitableFails(w, t, d);
    }
  }

  // `most` are its values in the population, `strays` those outside.
  function ColumnFor(d: Definition, most: seq<Value>, strays: seq<Value>, keyless: bool): Column
    requires most != []
  {
    Column(most + strays + (if d.unique == No then [most[0]] else []), keyless)
  }

  lemma ColumnValues(d: Definition, most: seq<Value>, strays: seq<Value>, keyless: bool)
    requires most != []
    ensures var c := ColumnFor(d, most, strays, keyless);
            && |c.values| > 0 && c.values[0] == most[0]
            && (forall v :: v in c.values <==> v in most || v in strays)
            && (d.unique == No ==> |c.values| > 1 && c.values[|c.values| - 1] == most[0])
  {
    assert most[0] in most;
  }

  predicate IsMost(d: Definition, most: seq<Value>) {
    || (most == ["a", "b"] && d.universe != Partial)
    || ((most == ["a"] || most == ["b"]) && d.universe != Complete)
  }

  predicate IsStrays(d: Definition, strays: seq<Value>) {
    || (strays == [] && Conforming(d) != No)
    || ((strays == ["x"] || strays == ["y"]) && Conforming(d) != Yes)
  }

  lemma ColumnSuits(d: Definition, most: seq<Value>, strays: seq<Value>, keyless: bool)
    requires IsMost(d, most) && IsStrays(d, strays)
    requires (d.total == Yes ==> !keyless) && (d.total == No ==> keyless)
    ensures Suits(d, ColumnFor(d, most, strays, keyless))
  {
    var c := ColumnFor(d, most, strays, keyless);
    ColumnValues(d, most, strays, keyless);
    if d.unique == No {
      assert c.values[0] == c.values[|c.values| - 1];
    }
    if strays != [] {
      assert strays[0] in c.values && strays[0] !in POPULATION;
    }
    if |most| == 2 {
      assert most[0] == "a" && most[1] == "b";
    }
  }

  // The values a definition at most allows: all the population if it must, strays if it may.
  function LooseColumn(d: Definition, lone: Value, stray: Value, keyless: bool): Column {
    ColumnFor(d, if d.universe == Complete then ["a", "b"] else [lone],
              if Conforming(d) == Yes then [] else [stray], keyless)
  }

  lemma LooseColumnSuits(d: Definition, lone: Value, stray: Value, keyless: bool)
    requires (lone == "a" || lone == "b") && (stray == "x" || stray == "y")
    requires (d.total == Yes ==> !keyless) && (d.total == No ==> keyless)
    ensures Suits(d, LooseColumn(d, lone, stray, keyless))
  {
    ColumnSuits(d, if d.universe == Complete then ["a", "b"] else [lone],
                if Conforming(d) == Yes then [] else [stray], keyless);
  }

  lemma LooseColumnValues(d: Definition, lone: Value, stray: Value, keyless: bool)
    ensures var c := LooseColumn(d, lone, stray, keyless);
            && c.keyless == keyless && |c.values| > 0
            && c.values[0] == (if d.universe == Complete then "a" else lone)
            && (forall v :: v in c.values <==>
                  || (if d.universe == Complete then v == "a" || v == "b" else v == lone)
                  || (Conforming(d) != Yes && v == stray))
            && (d.unique == No ==> |c.values| > 1 && c.values[|c.values| - 1] == c.values[0])
  {
    ColumnValues(d, if d.universe == Complete then ["a", "b"] else [lone],
                 if Conforming(d) == Yes then [] else [stray], keyless);
  }

  lemma KeylessUnmatched(w: World, s: Occurrence, t: Occurrence, c: Column)
    requires Shows(w, s, c) && c.keyless
    ensures !EveryRecordMatches(w, s, t)
  {
    var i := |c.values|;
    assert IsRecord(w, s, i) && !IsMatched(w, s, t, i);
  }

  lemma ElsewhereUnmatched(w: World, s: Occurrence, t: Occurrence, c: Column, d: Column, v: Value)
    requires Shows(w, s, c) && Shows(w, t, d) && v in c.values && v !in d.values
    ensures !EveryRecordMatches(w, s, t)
  {
    var i :| 0 <= i < |c.values| && c.values[i] == v;
    assert Holds(w, s, i, v);
    ValueUnmatched(w, s, t, v);
  }

  // Data with an unmatched record of `s`.
  lemma Unmatched(s: Occurrence, t: Occurrence) returns (w: World)
    requires s.nodeId != t.nodeId && DerivedExistence(s.definition, t.definition) != Always
    ensures Fits(w, s) && Fits(w, t) && !EveryRecordMatches(w, s, t)
    ensures Coherent(s.definition) && Coherent(t.definition) ==> Describe(w, s, t)
  {
    var d, e := s.definition, t.definition;
    var c, other := LooseColumn(d, "a", "x", d.total != Yes), LooseColumn(e, "b", "y", e.total == No);
    LooseColumnSuits(d, "a", "x", d.total != Yes);
    LooseColumnSuits(e, "b", "y", e.total == No);
    LooseColumnValues(d, "a", "x", d.total != Yes);
    LooseColumnValues(e, "b", "y", e.total == No);
    w := SuitableDescribe(s, t, c, other);
    if d.total != Yes {
      KeylessUnmatched(w, s, t, c);
    } else {
      ElsewhereUnmatched(w, s, t, c, other, if Conforming(d) != Yes then "x" else "a");
    }
  }

  // `always` is derived exactly when all data that fits has a match for every record, and that is the
  // same whether or not denials are to bear out as well.
  lemma AlwaysExactly(s: Occurrence, t: Occurrence)
    requires s.nodeId != t.nodeId && s.definition.identityId == t.definition.identityId
    ensures DerivedExistence(s.definition, t.definition) == Always <==>
            forall w :: Fits(w, s) && Fits(w, t) ==> EveryRecordMatches(w, s, t)
    ensures Coherent(s.definition) && Coherent(t.definition) ==>
              (DerivedExistence(s.definition, t.definition) == Always <==>
               forall w :: Describe(w, s, t) ==> EveryRecordMatches(w, s, t))
  {
    if DerivedExistence(s.definition, t.definition) == Always {
      forall w | Fits(w, s) && Fits(w, t) ensures EveryRecordMatches(w, s, t) {
        ClaimsHold(w, s, t);
      }
    } else {
      var w := Unmatched(s, t);
    }
  }

  // A value outside the population where the other side conforms.
  ghost predicate StraysAlone(s: Definition, t: Definition) { s.conforms == No && Conforming(t) == Yes }

  lemma StrayUnmatched(w: World, s: Occurrence, t: Occurrence)
    requires Describe(w, s, t) && s.definition.identityId == t.definition.identityId
    requires StraysAlone(s.definition, t.definition)
    ensures !EveryRecordMatches(w, s, t)
  {
    var i: nat, v :| Holds(w, s, i, v) && !Populates(w, s, v);
    assert forall j: nat :: Holds(w, t, j, v) ==> Populates(w, t, v);
    ValueUnmatched(w, s, t, v);
  }

  lemma AllContained(w: World, s: Occurrence, t: Occurrence, c: Column, d: Column)
    requires Shows(w, s, c) && Shows(w, t, d) && !c.keyless && forall v :: v in c.values ==> v in d.values
    ensures EveryRecordMatches(w, s, t)
  {
    forall i: nat | IsRecord(w, s, i) ensures IsMatched(w, s, t, i) {
      var v := c.values[i];
      assert v in c.values && v in d.values;
      var j: nat :| j < |d.values| && d.values[j] == v;
      assert Holds(w, s, i, v) && Holds(w, t, j, v);
      assert Match(w, s, t, i, j);
    }
  }

  // Data in which every record of `s` has a match.
  lemma AllMatched(s: Occurrence, t: Occurrence) returns (w: World)
    requires s.nodeId != t.nodeId && Coherent(s.definition) && Coherent(t.definition)
    requires DerivedExistence(s.definition, t.definition) != Optional && !StraysAlone(s.definition, t.definition)
    ensures Describe(w, s, t) && EveryRecordMatches(w, s, t)
  {
    var d, e := s.definition, t.definition;
    var most := if d.universe == Complete then ["a", "b"] else ["a"];
    var strays: seq<Value> := if d.conforms == No then ["x"] else [];
    var others := if e.universe == Partial then ["a"] else ["a", "b"];
    var otherStrays: seq<Value> := if Conforming(e) == Yes then [] else ["x"];
    ColumnSuits(d, most, strays, false);
    ColumnSuits(e, others, otherStrays, e.total == No);
    ColumnValues(d, most, strays, false);
    ColumnValues(e, others, otherStrays, e.total == No);
    var c, other := ColumnFor(d, most, strays, false), ColumnFor(e, others, otherStrays, e.total == No);
    w := SuitableDescribe(s, t, c, other);
    assert others[0] == "a" && (e.universe != Partial ==> others[1] == "b");
    AllContained(w, s, t, c, other);
  }

  // Described data always has an unmatched record exactly when `optional` is derived, or when a key
  // that does not conform meets one that does, of which the derivation says nothing.
  lemma OptionalExactly(s: Occurrence, t: Occurrence)
    requires s.nodeId != t.nodeId && s.definition.identityId == t.definition.identityId
    requires Coherent(s.definition) && Coherent(t.definition)
    ensures DerivedExistence(s.definition, t.definition) == Optional || StraysAlone(s.definition, t.definition) <==>
            forall w :: Describe(w, s, t) ==> !EveryRecordMatches(w, s, t)
  {
    if DerivedExistence(s.definition, t.definition) == Optional || StraysAlone(s.definition, t.definition) {
      forall w | Describe(w, s, t) ensures !EveryRecordMatches(w, s, t) {
        if StraysAlone(s.definition, t.definition) {
          StrayUnmatched(w, s, t);
        } else {
          OptionalHasUnmatched(w, s, t);
        }
      }
    } else {
      var w := AllMatched(s, t);
    }
  }

  // ---------- keys not said to stray ----------

  // Without what it says of strays.
  function Unstrayed(o: Occurrence): Occurrence {
    o.(definition := o.definition.(conforms := if o.definition.conforms == No then Unknown else o.definition.conforms))
  }

  lemma SameData(w: World, o: Occurrence)
    ensures var u := Unstrayed(o);
            && (forall i: nat, v :: Holds(w, u, i, v) <==> Holds(w, o, i, v))
            && (forall i: nat :: IsRecord(w, u, i) <==> IsRecord(w, o, i))
            && (forall v :: Populates(w, u, v) <==> Populates(w, o, v))
  {}

  lemma UnstrayedFits(w: World, o: Occurrence)
    requires Fits(w, Unstrayed(o)) && Fails(w, Unstrayed(o))
    ensures Fits(w, o) && Lacking(w, o)
  {
    var u := Unstrayed(o);
    SameData(w, o);
    assert IsUnique(w, u) <==> IsUnique(w, o);
    assert Conforms(w, u) <==> Conforms(w, o);
    forall i: nat ensures HasKey(w, u, i) <==> HasKey(w, o, i) {
      if HasKey(w, u, i) { var v :| Holds(w, u, i, v); }
      if HasKey(w, o, i) { var v :| Holds(w, o, i, v); }
    }
    forall v ensures IsHeld(w, u, v) <==> IsHeld(w, o, v) {
      if i: nat :| Holds(w, u, i, v) { assert Holds(w, o, i, v); }
      if i: nat :| Holds(w, o, i, v) { assert Holds(w, u, i, v); }
    }
  }

  lemma UnstrayedMatches(w: World, s: Occurrence, t: Occurrence)
    requires EveryRecordMatches(w, Unstrayed(s), Unstrayed(t))
    ensures EveryRecordMatches(w, s, t)
  {
    SameData(w, s);
    SameData(w, t);
    forall i: nat | IsRecord(w, s, i) ensures IsMatched(w, s, t, i) {
      assert IsMatched(w, Unstrayed(s), Unstrayed(t), i);
      var j: nat :| Match(w, Unstrayed(s), Unstrayed(t), i, j);
      var v :| Holds(w, Unstrayed(s), i, v) && Holds(w, Unstrayed(t), j, v);
      assert Holds(w, s, i, v) && Holds(w, t, j, v);
      assert Match(w, s, t, i, j);
    }
  }

  // `optional` is derived exactly when an unmatched record is inevitable from all else that the definitions
  // assert and deny.
  lemma OptionalUnstrayed(s: Occurrence, t: Occurrence)
    requires s.nodeId != t.nodeId && s.definition.identityId == t.definition.identityId
    requires Coherent(s.definition) && Coherent(t.definition)
    ensures DerivedExistence(s.definition, t.definition) == Optional <==>
            forall w :: Fits(w, s) && Fits(w, t) && Lacking(w, s) && Lacking(w, t) ==> !EveryRecordMatches(w, s, t)
  {
    if DerivedExistence(s.definition, t.definition) == Optional {
      forall w | Fits(w, s) && Fits(w, t) && Lacking(w, s) && Lacking(w, t) ensures !EveryRecordMatches(w, s, t) {
        OptionalHasUnmatched(w, s, t);
      }
    } else {
      var w := AllMatched(Unstrayed(s), Unstrayed(t));
      UnstrayedFits(w, s);
      UnstrayedFits(w, t);
      UnstrayedMatches(w, s, t);
    }
  }

  lemma SharedTwice(w: World, s: Occurrence, t: Occurrence, c: Column, d: Column)
    requires Shows(w, s, c) && Shows(w, t, d) && |c.values| > 0 && |d.values| > 1
    requires c.values[0] == d.values[0] == d.values[|d.values| - 1]
    ensures !AtMostOneMatch(w, s, t)
  {
    var v, last := c.values[0], |d.values| - 1;
    assert Holds(w, s, 0, v) && Holds(w, t, 0, v) && Holds(w, t, last, v);
    assert Match(w, s, t, 0, 0) && Match(w, s, t, 0, last);
  }

  lemma StillSuits(d: Definition, c: Column)
    requires d.unique != Yes && Suits(d.(unique := No), c)
    ensures Suits(d, c)
  {}

  // Data that matches one record of `s` twice.
  lemma TwoMatches(s: Occurrence, t: Occurrence) returns (w: World)
    requires s.nodeId != t.nodeId && t.definition.unique != Yes
    ensures Fits(w, s) && Fits(w, t) && !AtMostOneMatch(w, s, t)
    ensures Coherent(s.definition) && Coherent(t.definition) ==> Describe(w, s, t)
  {
    var d, e := s.definition, t.definition.(unique := No);
    var c, other := LooseColumn(d, "a", "x", d.total == No), LooseColumn(e, "a", "y", e.total == No);
    LooseColumnSuits(d, "a", "x", d.total == No);
    LooseColumnSuits(e, "a", "y", e.total == No);
    LooseColumnValues(d, "a", "x", d.total == No);
    LooseColumnValues(e, "a", "y", e.total == No);
    StillSuits(t.definition, other);
    w := SuitableDescribe(s, t, c, other);
    SharedTwice(w, s, t, c, other);
  }

  // `1:1` or `many:1` is derived exactly when no data that fits matches a record twice, provided
  // the uniqueness of the start is assessed; again denials make no difference.
  lemma ToOneExactly(s: Occurrence, t: Occurrence)
    requires s.nodeId != t.nodeId && s.definition.identityId == t.definition.identityId
    ensures ToOne(MultiplicityBetween(s.definition.unique, t.definition.unique)) <==>
            s.definition.unique != Unknown && forall w :: Fits(w, s) && Fits(w, t) ==> AtMostOneMatch(w, s, t)
    ensures Coherent(s.definition) && Coherent(t.definition) ==>
              (ToOne(MultiplicityBetween(s.definition.unique, t.definition.unique)) <==>
               s.definition.unique != Unknown && forall w :: Describe(w, s, t) ==> AtMostOneMatch(w, s, t))
  {
    if t.definition.unique == Yes {
      forall w | Fits(w, s) && Fits(w, t) ensures AtMostOneMatch(w, s, t) {
        UniqueMatches(w, s, t);
      }
    } else {
      var w := TwoMatches(s, t);
    }
  }

  // `1:1` or `1:many` is derived exactly when no data that fits matches a record of `t` twice, provided the
  // uniqueness of the target is assessed.
  lemma FromOneExactly(s: Occurrence, t: Occurrence)
    requires s.nodeId != t.nodeId && s.definition.identityId == t.definition.identityId
    ensures FromOne(MultiplicityBetween(s.definition.unique, t.definition.unique)) <==>
            t.definition.unique != Unknown && forall w :: Fits(w, s) && Fits(w, t) ==> AtMostOneMatch(w, t, s)
    ensures Coherent(s.definition) && Coherent(t.definition) ==>
              (FromOne(MultiplicityBetween(s.definition.unique, t.definition.unique)) <==>
               t.definition.unique != Unknown && forall w :: Describe(w, s, t) ==> AtMostOneMatch(w, t, s))
  {
    ToOneExactly(t, s);
    if Coherent(s.definition) && Coherent(t.definition) {
      forall w ensures Describe(w, s, t) <==> Describe(w, t, s) {}
    }
  }

  // ---------- what a multiplicity says of the two keys ----------

  // Described data in which the keys are unique or not as asked, where the definitions leave that open.
  lemma UniqueAsAsked(s: Occurrence, t: Occurrence, sUnique: bool, tUnique: bool) returns (w: World)
    requires s.nodeId != t.nodeId && Coherent(s.definition) && Coherent(t.definition)
    requires s.definition.unique == (if sUnique then Yes else No) || s.definition.unique == Unknown
    requires t.definition.unique == (if tUnique then Yes else No) || t.definition.unique == Unknown
    ensures Describe(w, s, t) && (IsUnique(w, s) <==> sUnique) && (IsUnique(w, t) <==> tUnique)
  {
    var d := s.definition.(unique := if sUnique then Yes else No);
    var e := t.definition.(unique := if tUnique then Yes else No);
    var c, other := LooseColumn(d, "a", "x", d.total == No), LooseColumn(e, "a", "x", e.total == No);
    LooseColumnSuits(d, "a", "x", d.total == No);
    LooseColumnSuits(e, "a", "x", e.total == No);
    SuitsEither(s.definition, d, c);
    SuitsEither(t.definition, e, other);
    w := SuitableDescribe(s, t, c, other);
    ColumnUnique(w, s, d, c);
    ColumnUnique(w, t, e, other);
  }

  // Validation refuses exactly the definitions that no data can bear out.
  lemma CoherentExactly(s: Occurrence, t: Occurrence)
    requires s.nodeId != t.nodeId
    ensures Coherent(s.definition) && Coherent(t.definition) <==> exists w :: Describe(w, s, t)
  {
    if Coherent(s.definition) && Coherent(t.definition) {
      var w := UniqueAsAsked(s, t, s.definition.unique != No, t.definition.unique != No);
    }
  }

  lemma SuitsEither(d: Definition, e: Definition, c: Column)
    requires e == d.(unique := e.unique) && (d.unique == e.unique || d.unique == Unknown) && Suits(e, c)
    ensures Suits(d, c)
  {}

  lemma ColumnUnique(w: World, o: Occurrence, d: Definition, c: Column)
    requires Shows(w, o, c) && Suits(d, c) && d.unique != Unknown
    ensures IsUnique(w, o) <==> d.unique == Yes
  {
    if d.unique == No {
      var i, j :| 0 <= i < j < |c.values| && c.values[i] == c.values[j];
      assert Holds(w, o, i, c.values[i]) && Holds(w, o, j, c.values[i]);
    }
  }

  // In all described data the two keys are unique, or not, in this way.
  ghost predicate KeysAlways(s: Occurrence, t: Occurrence, sUnique: bool, tUnique: bool) {
    forall w :: Describe(w, s, t) ==> (IsUnique(w, s) <==> sUnique) && (IsUnique(w, t) <==> tUnique)
  }

  // Described data differs in the uniqueness of one of the two keys.
  ghost predicate KeysDiffer(s: Occurrence, t: Occurrence) {
    exists v, w ::
      && Describe(v, s, t) && Describe(w, s, t)
      && (IsUnique(v, s) != IsUnique(w, s) || IsUnique(v, t) != IsUnique(w, t))
  }

  function Decided(unique: bool): Claim { if unique then Yes else No }

  lemma KeysAlwaysExactly(s: Occurrence, t: Occurrence, sUnique: bool, tUnique: bool)
    requires s.nodeId != t.nodeId && Coherent(s.definition) && Coherent(t.definition)
    ensures KeysAlways(s, t, sUnique, tUnique) <==>
            s.definition.unique == Decided(sUnique) && t.definition.unique == Decided(tUnique)
  {
    if KeysAlways(s, t, sUnique, tUnique) {
      var w := UniqueAsAsked(s, t, s.definition.unique != No, t.definition.unique != No);
      assert s.definition.unique != Decided(!sUnique) && t.definition.unique != Decided(!tUnique);
      var v := UniqueAsAsked(s, t, s.definition.unique == Yes, t.definition.unique == Yes);
    }
  }

  lemma KeysDifferExactly(s: Occurrence, t: Occurrence)
    requires s.nodeId != t.nodeId && Coherent(s.definition) && Coherent(t.definition)
    ensures KeysDiffer(s, t) <==> s.definition.unique == Unknown || t.definition.unique == Unknown
  {
    if s.definition.unique == Unknown || t.definition.unique == Unknown {
      var v := UniqueAsAsked(s, t, s.definition.unique != No, t.definition.unique != No);
      var w := UniqueAsAsked(s, t, s.definition.unique == Yes, t.definition.unique == Yes);
    }
  }

  // Each multiplicity is derived exactly when described data always has unique keys on just these sides,
  // `unknown` exactly when it does not settle the uniqueness of both.
  lemma MultiplicityExactly(s: Occurrence, t: Occurrence)
    requires s.nodeId != t.nodeId && Coherent(s.definition) && Coherent(t.definition)
    ensures var m := MultiplicityBetween(s.definition.unique, t.definition.unique);
            && (m == OneToOne <==> KeysAlways(s, t, true, true))
            && (m == OneToMany <==> KeysAlways(s, t, true, false))
            && (m == ManyToOne <==> KeysAlways(s, t, false, true))
            && (m == ManyToMany <==> KeysAlways(s, t, false, false))
            && (m == UnknownMultiplicity <==> KeysDiffer(s, t))
  {
    KeysAlwaysExactly(s, t, true, true);
    KeysAlwaysExactly(s, t, true, false);
    KeysAlwaysExactly(s, t, false, true);
    KeysAlwaysExactly(s, t, false, false);
    KeysDifferExactly(s, t);
  }
}
