// What the derived relationships are: one for every two definitions of one identity, canonically
// oriented, told apart by their edge IDs when names keep to the ID's separators.
module DerivedRelationships {
  import opened Order
  import opened Model
  import opened Derivation

  // ---------- exactly one for every pair ----------

  ghost predicate PairIn(os: set<Occurrence>, s: Occurrence, t: Occurrence) {
    s in os && t in os && Before(s, t)
  }

  ghost predicate Pairs(members: seq<Occurrence>, s: Occurrence, t: Occurrence) {
    exists i, j :: 0 <= i < j < |members| && members[i] == s && members[j] == t
  }

  lemma {:induction false} CombinationsMembers(members: seq<Occurrence>, s: Occurrence, t: Occurrence)
    ensures (s, t) in Combinations(members) <==> Pairs(members, s, t)
  {
    if members == [] {
    } else {
      var m, rest := members[0], members[1..];
      CombinationsMembers(rest, s, t);
      var each := WithEach(m, rest);
      if (s, t) in each {
        var j :| 0 <= j < |rest| && each[j] == (s, t);
        assert members[j + 1] == t;
      }
      if Pairs(rest, s, t) {
        var i, j :| 0 <= i < j < |rest| && rest[i] == s && rest[j] == t;
        assert members[i + 1] == s && members[j + 1] == t;
      }
      if Pairs(members, s, t) {
        var i, j :| 0 <= i < j < |members| && members[i] == s && members[j] == t;
        assert rest[j - 1] == t && (i == 0 || rest[i - 1] == s);
        if i == 0 { assert each[j - 1] == (s, t); }
      }
    }
  }

  lemma {:induction false} CombinationsOnce(members: seq<Occurrence>)
    requires NoDuplicates(members)
    ensures NoDuplicates(Combinations(members))
  {
    if members == [] {
    } else {
      var m, rest := members[0], members[1..];
      CombinationsOnce(rest);
      var each := WithEach(m, rest);
      forall p | p in each ensures p !in Combinations(rest) {
        CombinationsMembers(rest, p.0, p.1);
        assert p == (p.0, p.1) && p.0 == m && m !in rest;
      }
      NoDuplicatesConcat(each, Combinations(rest));
    }
  }

  lemma SortedPairs(group: set<Occurrence>, members: seq<Occurrence>, s: Occurrence, t: Occurrence)
    requires Distinguishes(OccurrenceKey, group) && Ascending(members, OccurrenceKey) && NoDuplicates(members)
    requires forall o :: o in members <==> o in group
    ensures Pairs(members, s, t) <==> s in group && t in group && s != t && Leq(OccurrenceKey(s), OccurrenceKey(t))
  {
    if s in group && t in group && s != t && Leq(OccurrenceKey(s), OccurrenceKey(t)) {
      var i :| 0 <= i < |members| && members[i] == s;
      var j :| 0 <= j < |members| && members[j] == t;
      if j < i {
        assert Leq(OccurrenceKey(members[j]), OccurrenceKey(members[i]));
        Total(OccurrenceKey(s), OccurrenceKey(t));
        assert false;
      }
    }
  }

  // Two members of a sorted group, in order.
  lemma PairsOfGroup(os: set<Occurrence>, id: string, s: Occurrence, t: Occurrence)
    requires DistinctEndpoints(os)
    ensures (s, t) in Combinations(MembersOf(os, id)) <==> PairIn(os, s, t) && s.definition.identityId == id
  {
    CombinationsMembers(MembersOf(os, id), s, t);
    SortedPairs(OfIdentity(os, id), MembersOf(os, id), s, t);
  }

  ghost predicate PairsExactly(os: set<Occurrence>, identities: seq<string>, pairs: seq<(Occurrence, Occurrence)>) {
    forall s, t :: (s, t) in pairs <==> PairIn(os, s, t) && s.definition.identityId in identities
  }

  lemma PairsSnoc(os: set<Occurrence>, init: seq<string>, id: string, before: seq<(Occurrence, Occurrence)>,
                  now: seq<(Occurrence, Occurrence)>)
    requires PairsExactly(os, init, before) && PairsExactly(os, [id], now) && id !in init
    requires NoDuplicates(before) && NoDuplicates(now)
    ensures PairsExactly(os, init + [id], before + now) && NoDuplicates(before + now)
  {
    forall p | p in before ensures p !in now {
      assert p == (p.0, p.1);
    }
    NoDuplicatesConcat(before, now);
  }

  lemma PairsOfOne(os: set<Occurrence>, id: string)
    requires DistinctEndpoints(os)
    ensures PairsExactly(os, [id], Combinations(MembersOf(os, id))) && NoDuplicates(Combinations(MembersOf(os, id)))
  {
    forall s, t
      ensures (s, t) in Combinations(MembersOf(os, id)) <==> PairIn(os, s, t) && s.definition.identityId in [id]
    {
      PairsOfGroup(os, id, s, t);
    }
    CombinationsOnce(MembersOf(os, id));
  }

  lemma {:induction false} PairsOfIdentities(os: set<Occurrence>, identities: seq<string>)
    requires DistinctEndpoints(os) && NoDuplicates(identities)
    ensures PairsExactly(os, identities, PairsOf(os, identities)) && NoDuplicates(PairsOf(os, identities))
  {
    if identities == [] {
    } else {
      var init, id := identities[..|identities| - 1], identities[|identities| - 1];
      assert identities == init + [id];
      PairsOfIdentities(os, init);
      PairsOfOne(os, id);
      PairsSnoc(os, init, id, PairsOf(os, init), Combinations(MembersOf(os, id)));
    }
  }

  lemma RelatedInjective(os: set<Occurrence>, s: Occurrence, t: Occurrence, s': Occurrence, t': Occurrence)
    requires DistinctEndpoints(os) && s in os && t in os && s' in os && t' in os && Related(s, t) == Related(s', t')
    ensures s == s' && t == t'
  {
    assert EndpointOf(s) == EndpointOf(s') && EndpointOf(t) == EndpointOf(t');
    assert OccurrenceKey(s) == OccurrenceKey(s') && OccurrenceKey(t) == OccurrenceKey(t');
  }

  lemma RelatedAllOnce(os: set<Occurrence>, pairs: seq<(Occurrence, Occurrence)>)
    requires DistinctEndpoints(os) && NoDuplicates(pairs) && forall p :: p in pairs ==> p.0 in os && p.1 in os
    ensures NoDuplicates(RelatedAll(pairs))
  {
    var rs := RelatedAll(pairs);
    forall i, j | 0 <= i < j < |rs| ensures rs[i] != rs[j] {
      var p, q := pairs[i], pairs[j];
      assert p in pairs && q in pairs;
      if rs[i] == rs[j] { RelatedInjective(os, p.0, p.1, q.0, q.1); }
    }
  }

  lemma RelatedMember(pairs: seq<(Occurrence, Occurrence)>, r: Relationship)
    ensures r in RelatedAll(pairs) <==> exists s, t :: (s, t) in pairs && r == Related(s, t)
  {
    var rs := RelatedAll(pairs);
    if r in rs {
      var i :| 0 <= i < |rs| && rs[i] == r;
      assert (pairs[i].0, pairs[i].1) in pairs;
    }
    if s, t :| (s, t) in pairs && r == Related(s, t) {
      var i :| 0 <= i < |pairs| && pairs[i] == (s, t);
      assert rs[i] == r;
    }
  }

  // The pairs, in the order they are related.
  function AllPairs(os: set<Occurrence>): seq<(Occurrence, Occurrence)>
    requires DistinctEndpoints(os)
  {
    TextKeyDistinguishes(IdentitiesOf(os));
    PairsOf(os, Sorted(IdentitiesOf(os), TextKey))
  }

  lemma AllPairsExactly(os: set<Occurrence>)
    requires DistinctEndpoints(os)
    ensures forall s, t :: (s, t) in AllPairs(os) <==> PairIn(os, s, t)
    ensures NoDuplicates(AllPairs(os))
  {
    TextKeyDistinguishes(IdentitiesOf(os));
    PairsOfIdentities(os, Sorted(IdentitiesOf(os), TextKey));
    assert forall s, t :: PairIn(os, s, t) ==> s.definition.identityId in IdentitiesOf(os);
  }

  lemma DerivedFromPairs(os: set<Occurrence>)
    requires DistinctEndpoints(os)
    ensures Derived(os) == StablySorted(RelatedAll(AllPairs(os)), EdgeIdKey)
  {}

  // Every derived relationship is that of a pair, and every pair has exactly one.
  lemma OneForEveryPair(os: set<Occurrence>)
    requires DistinctEndpoints(os)
    ensures NoDuplicates(Derived(os)) && Ascending(Derived(os), EdgeIdKey)
    ensures forall r :: r in Derived(os) <==> exists s, t :: PairIn(os, s, t) && r == Related(s, t)
  {
    var pairs := AllPairs(os);
    AllPairsExactly(os);
    DerivedFromPairs(os);
    forall p | p in pairs ensures p.0 in os && p.1 in os {
      assert p == (p.0, p.1);
    }
    RelatedAllOnce(os, pairs);
    SamePermutation(RelatedAll(pairs), Derived(os));
    forall r ensures r in Derived(os) <==> exists s, t :: PairIn(os, s, t) && r == Related(s, t) {
      RelatedMember(pairs, r);
    }
  }

  // A derived relationship with the ends of a pair is the pair's.
  lemma OnlyOneForPair(os: set<Occurrence>, s: Occurrence, t: Occurrence, r: Relationship)
    requires DistinctEndpoints(os) && PairIn(os, s, t) && r in Derived(os)
    requires {r.a, r.b} == {EndpointOf(s), EndpointOf(t)}
    ensures r == Related(s, t)
  {
    OneForEveryPair(os);
    var s', t' :| PairIn(os, s', t') && r == Related(s', t');
    SamePair(os, s, t, s', t');
  }

  lemma SamePair(os: set<Occurrence>, s: Occurrence, t: Occurrence, s': Occurrence, t': Occurrence)
    requires DistinctEndpoints(os) && PairIn(os, s, t) && PairIn(os, s', t')
    requires {EndpointOf(s), EndpointOf(t)} == {EndpointOf(s'), EndpointOf(t')}
    ensures s == s' && t == t'
  {
    assert OccurrenceKey(s) != OccurrenceKey(t) && OccurrenceKey(s') != OccurrenceKey(t');
    assert EndpointOf(s) in {EndpointOf(s'), EndpointOf(t')} && EndpointOf(t) in {EndpointOf(s'), EndpointOf(t')};
    Total(OccurrenceKey(s), OccurrenceKey(t));
  }

  // Each lies in canonical orientation under its canonical ID, with the claims of both directions.
  lemma DerivedIsCanonical(os: set<Occurrence>, r: Relationship)
    requires DistinctEndpoints(os) && r in Derived(os)
    ensures Canonical(r) == r && r.edgeId == EdgeIdFor(r.a, r.b) && r.a != r.b && r.a.identityId == r.b.identityId
    ensures exists s, t :: s in os && t in os && r.a == EndpointOf(s) && r.b == EndpointOf(t)
              && r.aToB == DerivedDirection(s.definition, t.definition)
              && r.bToA == DerivedDirection(t.definition, s.definition)
  {
    OneForEveryPair(os);
    var s, t :| PairIn(os, s, t) && r == Related(s, t);
    assert OccurrenceKey(s) != OccurrenceKey(t);
  }

  // ---------- telling edge IDs apart ----------

  predicate Lacks(s: string, c: char) { c !in s }

  // Two separators in a row.
  predicate HasSplit(s: string) {
    exists i :: 0 <= i < |s| - 1 && s[i] == '_' && s[i + 1] == '_'
  }

  // A side that can be read back from the beginning of an edge ID.
  predicate Plain(e: Endpoint) {
    && Lacks(e.identityId, ':') && e.columns != []
    && (forall c :: c in e.columns ==> c != "" && Lacks(c, ':') && Lacks(c, '+'))
    && !HasSplit(Side(e)) && Side(e)[|Side(e)| - 1] != '_'
  }

  lemma LastSeparator(xs: string, x: string, ys: string, y: string, c: char)
    requires Lacks(x, c) && Lacks(y, c) && xs + [c] + x == ys + [c] + y
    ensures xs == ys && x == y
  {
    var all, other := xs + [c] + x, ys + [c] + y;
    assert all[|xs|] == c && other[|ys|] == c;
    assert forall i :: |xs| < i < |all| ==> all[i] in x;
    assert forall i :: |ys| < i < |other| ==> other[i] in y;
    assert |xs| == |ys|;
    assert all[..|xs|] == xs && other[..|ys|] == ys;
    assert all[|xs| + 1..] == x && other[|ys| + 1..] == y;
  }

  lemma FirstSeparator(x: string, xs: string, y: string, ys: string, c: char)
    requires Lacks(x, c) && Lacks(y, c) && x + [c] + xs == y + [c] + ys
    ensures x == y && xs == ys
  {
    var all, other := x + [c] + xs, y + [c] + ys;
    assert all[|x|] == c && other[|y|] == c;
    assert forall i :: 0 <= i < |x| ==> all[i] in x;
    assert forall i :: 0 <= i < |y| ==> other[i] in y;
    assert |x| == |y|;
    assert all[..|x|] == x && other[..|y|] == y;
    assert all[|x| + 1..] == xs && other[|y| + 1..] == ys;
  }

  predicate PlainColumns(columns: seq<string>) {
    columns != [] && forall c :: c in columns ==> Lacks(c, '+')
  }

  lemma JoinedMore(xs: seq<string>)
    requires |xs| > 1
    ensures JoinedBy(xs, "+") == xs[0] + ['+'] + JoinedBy(xs[1..], "+")
    ensures '+' in JoinedBy(xs, "+")
  {
    assert JoinedBy(xs, "+")[|xs[0]|] == '+';
  }

  lemma {:induction false} JoinedInjective(xs: seq<string>, ys: seq<string>)
    requires PlainColumns(xs) && PlainColumns(ys) && JoinedBy(xs, "+") == JoinedBy(ys, "+")
    ensures xs == ys
  {
    if |xs| > 1 { JoinedMore(xs); }
    if |ys| > 1 { JoinedMore(ys); }
    assert Lacks(xs[0], '+') && Lacks(ys[0], '+');
    if |xs| > 1 && |ys| > 1 {
      FirstSeparator(xs[0], JoinedBy(xs[1..], "+"), ys[0], JoinedBy(ys[1..], "+"), '+');
      JoinedInjective(xs[1..], ys[1..]);
      assert xs == [xs[0]] + xs[1..] && ys == [ys[0]] + ys[1..];
    } else {
      assert xs == [xs[0]] && ys == [ys[0]];
    }
  }

  lemma {:induction false} JoinedLacks(xs: seq<string>)
    requires forall x :: x in xs ==> Lacks(x, ':')
    ensures Lacks(JoinedBy(xs, "+"), ':')
  {
    if |xs| <= 1 {
    } else {
      JoinedLacks(xs[1..]);
      JoinedMore(xs);
      assert Lacks(xs[0], ':');
    }
  }

  lemma SideInjective(e: Endpoint, f: Endpoint)
    requires Plain(e) && Plain(f) && Side(e) == Side(f)
    ensures e == f
  {
    var x, y := JoinedBy(e.columns, "+"), JoinedBy(f.columns, "+");
    JoinedLacks(e.columns);
    JoinedLacks(f.columns);
    assert Side(e) == (e.nodeId + ":" + e.identityId) + [':'] + x;
    assert Side(f) == (f.nodeId + ":" + f.identityId) + [':'] + y;
    LastSeparator(e.nodeId + ":" + e.identityId, x, f.nodeId + ":" + f.identityId, y, ':');
    LastSeparator(e.nodeId, e.identityId, f.nodeId, f.identityId, ':');
    JoinedInjective(e.columns, f.columns);
  }

  lemma NoEarlierSplit(x: string, rest: string, y: string, other: string)
    requires x + "__" + rest == y + "__" + other && !HasSplit(y) && y != "" && y[|y| - 1] != '_'
    ensures |y| <= |x|
  {
    var all, same := x + "__" + rest, y + "__" + other;
    assert all[|x|] == '_' && all[|x| + 1] == '_';
    assert forall i :: 0 <= i < |y| ==> same[i] == y[i];
    assert forall i :: 0 <= i < |y| - 1 ==> !(same[i] == '_' && same[i + 1] == '_');
  }

  predicate PlainSide(s: string) { !HasSplit(s) && s != "" && s[|s| - 1] != '_' }

  lemma SidesReadBack(x: string, r: string, y: string, s: string)
    requires PlainSide(x) && PlainSide(y) && x + "__" + r == y + "__" + s
    ensures x == y && r == s
  {
    NoEarlierSplit(x, r, y, s);
    NoEarlierSplit(y, s, x, r);
    assert (x + "__" + r)[..|x|] == x && (y + "__" + s)[..|y|] == y;
    assert (x + "__" + r)[|x| + 2..] == r && (y + "__" + s)[|y| + 2..] == s;
  }

  // Plain endpoints can be read back from an edge ID.
  lemma EdgeIdInjective(a: Endpoint, b: Endpoint, c: Endpoint, d: Endpoint)
    requires Plain(a) && Plain(b) && Plain(c) && Plain(d) && EdgeIdFor(a, b) == EdgeIdFor(c, d)
    ensures CanonicalEndpoints(a, b) == CanonicalEndpoints(c, d)
  {
    var (l, r) := CanonicalEndpoints(a, b);
    var (m, s) := CanonicalEndpoints(c, d);
    assert Plain(l) && Plain(r) && Plain(m) && Plain(s);
    SidesReadBack(Side(l), Side(r), Side(m), Side(s));
    SideInjective(l, m);
    SideInjective(r, s);
  }

  ghost predicate DistinctIds(relationships: seq<Relationship>) {
    forall i, j :: 0 <= i < j < |relationships| ==> relationships[i].edgeId != relationships[j].edgeId
  }

  // With plain endpoints, the derived relationships have different IDs.
  lemma PlainIdsDistinct(os: set<Occurrence>)
    requires DistinctEndpoints(os) && forall o :: o in os ==> Plain(EndpointOf(o))
    ensures DistinctIds(Derived(os))
  {
    var rs := Derived(os);
    OneForEveryPair(os);
    forall i, j | 0 <= i < j < |rs| ensures rs[i].edgeId != rs[j].edgeId {
      assert rs[i] in rs && rs[j] in rs;
      var s, t :| PairIn(os, s, t) && rs[i] == Related(s, t);
      var s', t' :| PairIn(os, s', t') && rs[j] == Related(s', t');
      if rs[i].edgeId == rs[j].edgeId {
        EdgeIdInjective(EndpointOf(s), EndpointOf(t), EndpointOf(s'), EndpointOf(t'));
        SamePair(os, s, t, s', t');
      }
    }
  }

  // ---------- exactly when they coincide ----------

  predicate SameSides(s: Occurrence, t: Occurrence) { Side(EndpointOf(s)) == Side(EndpointOf(t)) }

  // Where no side contains the separator of sides or ends in half of it, two pairs share an ID exactly if
  // their sides are the same, in order.
  lemma SameIdExactly(s: Occurrence, t: Occurrence, s': Occurrence, t': Occurrence)
    requires Before(s, t) && Before(s', t') && PlainSide(Side(EndpointOf(s))) && PlainSide(Side(EndpointOf(s')))
    ensures Related(s, t).edgeId == Related(s', t').edgeId <==> SameSides(s, s') && SameSides(t, t')
  {
    if Related(s, t).edgeId == Related(s', t').edgeId {
      SidesReadBack(Side(EndpointOf(s)), Side(EndpointOf(t)), Side(EndpointOf(s')), Side(EndpointOf(t')));
    }
  }

  // So derived relationships have different IDs exactly if no two pairs have the same sides.
  lemma IdsDistinctExactly(os: set<Occurrence>)
    requires DistinctEndpoints(os) && forall o :: o in os ==> PlainSide(Side(EndpointOf(o)))
    ensures DistinctIds(Derived(os)) <==>
            forall s, t, s', t' :: PairIn(os, s, t) && PairIn(os, s', t') && SameSides(s, s') && SameSides(t, t') ==>
              s == s' && t == t'
  {
    var rs := Derived(os);
    OneForEveryPair(os);
    if DistinctIds(rs) {
      forall s, t, s', t' | PairIn(os, s, t) && PairIn(os, s', t') && SameSides(s, s') && SameSides(t, t')
        ensures s == s' && t == t'
      {
        SameIdExactly(s, t, s', t');
        assert Related(s, t) in rs && Related(s', t') in rs;
        IdIdentifies(rs, Related(s, t), Related(s', t'));
        RelatedInjective(os, s, t, s', t');
      }
    } else {
      var i, j :| 0 <= i < j < |rs| && rs[i].edgeId == rs[j].edgeId;
      assert rs[i] in rs && rs[j] in rs;
      var s, t :| PairIn(os, s, t) && rs[i] == Related(s, t);
      var s', t' :| PairIn(os, s', t') && rs[j] == Related(s', t');
      SameIdExactly(s, t, s', t');
      assert !(s == s' && t == t');
    }
  }

  lemma IdIdentifies(relationships: seq<Relationship>, r: Relationship, s: Relationship)
    requires DistinctIds(relationships) && r in relationships && s in relationships && r.edgeId == s.edgeId
    ensures r == s
  {
    var i :| 0 <= i < |relationships| && relationships[i] == r;
    var j :| 0 <= j < |relationships| && relationships[j] == s;
  }

  // Any two definitions of one identity have a relationship, one way round or the other.
  lemma PairRelated(os: set<Occurrence>, s: Occurrence, t: Occurrence) returns (r: Relationship)
    requires DistinctEndpoints(os) && s in os && t in os && EndpointOf(s) != EndpointOf(t)
    requires s.definition.identityId == t.definition.identityId
    ensures r in Derived(os)
    ensures (r.a == EndpointOf(s) && r.b == EndpointOf(t)) || (r.a == EndpointOf(t) && r.b == EndpointOf(s))
  {
    Total(OccurrenceKey(s), OccurrenceKey(t));
    OneForEveryPair(os);
    if Leq(OccurrenceKey(s), OccurrenceKey(t)) {
      assert PairIn(os, s, t);
      r := Related(s, t);
    } else {
      assert PairIn(os, t, s);
      r := Related(t, s);
    }
  }

  lemma NodesFirst(e: Endpoint, f: Endpoint, g: Endpoint)
    requires e.nodeId == f.nodeId != g.nodeId
    ensures Leq(EndpointKey(e), EndpointKey(g)) <==> Leq(EndpointKey(f), EndpointKey(g))
  {
    var a, b, c := EndpointKey(e).items, EndpointKey(f).items, EndpointKey(g).items;
    assert a[0] == b[0] == Text(e.nodeId) && c[0] == Text(g.nodeId);
    assert TupleLeq(a, c) <==> Leq(a[0], c[0]);
    assert TupleLeq(b, c) <==> Leq(b[0], c[0]);
  }

  // Definitions with the same side on one dataset share an ID to any third definition elsewhere.
  lemma SidesCollide(os: set<Occurrence>, s: Occurrence, t: Occurrence, u: Occurrence)
    requires DistinctEndpoints(os) && s in os && t in os && u in os && s != t
    requires s.definition.identityId == t.definition.identityId == u.definition.identityId
    requires s.nodeId == t.nodeId != u.nodeId && Side(EndpointOf(s)) == Side(EndpointOf(t))
    ensures !DistinctIds(Derived(os))
  {
    assert OccurrenceKey(s) != OccurrenceKey(t);
    var q := PairRelated(os, s, u);
    var r := PairRelated(os, t, u);
    NodesFirst(EndpointOf(s), EndpointOf(t), EndpointOf(u));
    DerivedIsCanonical(os, q);
    DerivedIsCanonical(os, r);
    EdgeIdSymmetric(q.a, q.b);
    EdgeIdSymmetric(r.a, r.b);
    assert q != r && q.edgeId == r.edgeId;
    var i :| 0 <= i < |Derived(os)| && Derived(os)[i] == q;
    var j :| 0 <= j < |Derived(os)| && Derived(os)[j] == r;
    assert i < j || j < i;
  }

  // So a column name with the columns' separator in it can make relationships share an ID.
  lemma ColumnsCollide(node: string, other: string, d: Definition, e: Definition, f: Definition)
    requires node != other && d.identityId == e.identityId == f.identityId
    requires d.columns == ["a+b"] && e.columns == ["a", "b"]
    ensures var nodes := [Dataset(node, [d, e]), Dataset(other, [f])];
            && ValidNodes(nodes) && DistinctEndpoints(Occurrences(nodes))
            && !DistinctIds(Derived(Occurrences(nodes)))
  {
    var nodes := [Dataset(node, [d, e]), Dataset(other, [f])];
    assert |d.columns| != |e.columns|;
    ValidNodesDistinct(nodes);
    var s, t, u := Occurrence(node, d), Occurrence(node, e), Occurrence(other, f);
    assert nodes[0] in nodes && nodes[1] in nodes && d in nodes[0].definitions && e in nodes[0].definitions;
    assert f in nodes[1].definitions;
    assert s in OccurrencesOn(nodes[0]) && t in OccurrencesOn(nodes[0]) && u in OccurrencesOn(nodes[1]);
    assert e.columns[1..] == ["b"];
    assert JoinedBy(d.columns, "+") == "a+b" == JoinedBy(e.columns, "+");
    SidesCollide(Occurrences(nodes), s, t, u);
  }
}
