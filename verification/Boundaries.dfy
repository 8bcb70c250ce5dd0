// Kruskal's choice of region boundaries, as a function of the sorted candidates
// (`_spanning_boundaries`).
//
// The program tracks which terminals are already joined with a union-find; here the classes are a
// map from every terminal to its class.
module Boundaries {
  import opened Order
  import opened Sets
  import opened Regions

  type Item = (Pair, Candidate)

  datatype Forest = Forest(classes: map<string, string>, chosen: seq<Candidate>)

  function ItemKey(item: Item): Key { CandidateKey(item.1) }

  function Singletons(terminals: seq<string>): (m: map<string, string>)
    ensures forall t :: t in m <==> t in terminals
    ensures forall t :: t in m ==> m[t] == t
  {
    map t | t in terminals :: t
  }

  function Merge(classes: map<string, string>, a: string, b: string): (m: map<string, string>)
    requires a in classes && b in classes
    ensures m.Keys == classes.Keys
    ensures forall x :: x in m ==> m[x] == if classes[x] == classes[b] then classes[a] else classes[x]
  {
    map x | x in classes :: if classes[x] == classes[b] then classes[a] else classes[x]
  }

  predicate Joinable(classes: map<string, string>, pair: Pair) {
    pair.0 in classes && pair.1 in classes && classes[pair.0] != classes[pair.1]
  }

  function Choose(f: Forest, item: Item): Forest {
    if Joinable(f.classes, item.0) then Forest(Merge(f.classes, item.0.0, item.0.1), f.chosen + [item.1]) else f
  }

  function Kruskal(terminals: seq<string>, items: seq<Item>): Forest {
    if items == [] then Forest(Singletons(terminals), [])
    else Choose(Kruskal(terminals, items[..|items| - 1]), items[|items| - 1])
  }

  // Merging two classes leaves one class fewer.
  lemma MergeValues(classes: map<string, string>, a: string, b: string)
    requires Joinable(classes, (a, b))
    ensures Merge(classes, a, b).Values == classes.Values - {classes[b]}
    ensures |Merge(classes, a, b).Values| == |classes.Values| - 1
  {
    var m := Merge(classes, a, b);
    forall y | y in classes.Values - {classes[b]} ensures y in m.Values {
      var x :| x in classes && classes[x] == y;
      assert m[x] == y;
    }
  }

  lemma {:induction false} KruskalClasses(terminals: seq<string>, items: seq<Item>)
    requires NoDuplicates(terminals)
    ensures var f := Kruskal(terminals, items);
            && (forall t :: t in f.classes <==> t in terminals)
            && |f.classes.Values| + |f.chosen| == |terminals|
  {
    if items == [] {
      var m := Singletons(terminals);
      assert m.Values == set t | t in terminals by {
        forall t | t in terminals ensures t in m.Values { assert m[t] == t; }
      }
      DistinctSize(terminals);
    } else {
      var f := Kruskal(terminals, items[..|items| - 1]);
      var item := items[|items| - 1];
      KruskalClasses(terminals, items[..|items| - 1]);
      if Joinable(f.classes, item.0) {
        MergeValues(f.classes, item.0.0, item.0.1);
      }
    }
  }

  // Nothing can be chosen once a single class is left.
  lemma {:induction false} KruskalStops(terminals: seq<string>, items: seq<Item>, more: seq<Item>)
    requires NoDuplicates(terminals) && items <= more
    requires |Kruskal(terminals, items).chosen| + 1 == |terminals|
    ensures Kruskal(terminals, more) == Kruskal(terminals, items)
    decreases |more|
  {
    if items != more {
      var init, item := more[..|more| - 1], more[|more| - 1];
      KruskalStops(terminals, items, init);
      var f := Kruskal(terminals, items);
      KruskalClasses(terminals, items);
      if Joinable(f.classes, item.0) {
        assert {f.classes[item.0.0], f.classes[item.0.1]} <= f.classes.Values;
        SubsetSize({f.classes[item.0.0], f.classes[item.0.1]}, f.classes.Values);
        assert false;
      }
    } else {
      assert items == more;
    }
  }

  // Every pair offered ends up in one class.
  lemma {:induction false} OfferedJoined(terminals: seq<string>, items: seq<Item>, item: Item)
    requires item in items && item.0.0 in terminals && item.0.1 in terminals
    ensures var m := Kruskal(terminals, items).classes;
            item.0.0 in m && item.0.1 in m && m[item.0.0] == m[item.0.1]
  {
    var init, last := items[..|items| - 1], items[|items| - 1];
    KruskalKeys(terminals, init);
    if item == last {
    } else {
      OfferedJoined(terminals, init, item);
    }
  }

  lemma {:induction false} KruskalKeys(terminals: seq<string>, items: seq<Item>)
    ensures forall t :: t in Kruskal(terminals, items).classes <==> t in terminals
  {
    if items == [] {
    } else {
      KruskalKeys(terminals, items[..|items| - 1]);
    }
  }
}
