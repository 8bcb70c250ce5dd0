// Sorting keys and `sorted(...)`.
//
// The program sorts by tuples of integers, strings and tuples, compared the way its language
// compares tuples: position by position, a proper prefix first.  `Key` is one datatype for all
// of them; `Sorted` lists a finite set by increasing key.
module Order {

  datatype Key = Num(n: int) | Text(s: string) | Tuple(items: seq<Key>)

  predicate TextLeq(a: string, b: string) {
    a == [] || (b != [] && if a[0] == b[0] then TextLeq(a[1..], b[1..]) else a[0] < b[0])
  }

  // Keys of different shapes are never compared by the program; the order puts numbers first.
  predicate Leq(a: Key, b: Key)
    decreases a, 1
  {
    match a
    case Num(m) => b.Num? ==> m <= b.n
    case Text(s) => b.Tuple? || (b.Text? && TextLeq(s, b.s))
    case Tuple(xs) => b.Tuple? && TupleLeq(xs, b.items)
  }

  predicate TupleLeq(a: seq<Key>, b: seq<Key>)
    decreases a, 0
  {
    a == [] || (b != [] && if a[0] == b[0] then TupleLeq(a[1..], b[1..]) else Leq(a[0], b[0]))
  }

  lemma {:induction false} TextTotal(a: string, b: string)
    ensures TextLeq(a, b) || TextLeq(b, a)
    ensures TextLeq(a, b) && TextLeq(b, a) ==> a == b
  {
    if a == [] || b == [] {
    } else {
      TextTotal(a[1..], b[1..]);
      assert a == [a[0]] + a[1..] && b == [b[0]] + b[1..];
    }
  }

  lemma {:induction false} TextTransitive(a: string, b: string, c: string)
    requires TextLeq(a, b) && TextLeq(b, c)
    ensures TextLeq(a, c)
  {
    if a != [] && a[0] == b[0] && b[0] == c[0] {
      TextTransitive(a[1..], b[1..], c[1..]);
    }
  }

  // Any two keys are ordered, and keys ordered both ways are equal.
  lemma {:induction false} Total(a: Key, b: Key)
    ensures Leq(a, b) || Leq(b, a)
    ensures Leq(a, b) && Leq(b, a) ==> a == b
    decreases a, 1
  {
    match a
    case Num(_) =>
    case Text(s) => if b.Text? { TextTotal(s, b.s); }
    case Tuple(xs) => if b.Tuple? { TupleTotal(xs, b.items); }
  }

  lemma {:induction false} TupleTotal(a: seq<Key>, b: seq<Key>)
    ensures TupleLeq(a, b) || TupleLeq(b, a)
    ensures TupleLeq(a, b) && TupleLeq(b, a) ==> a == b
    decreases a, 0
  {
    if a == [] || b == [] {
    } else {
      Total(a[0], b[0]);
      TupleTotal(a[1..], b[1..]);
      assert a == [a[0]] + a[1..] && b == [b[0]] + b[1..];
    }
  }

  lemma {:induction false} Transitive(a: Key, b: Key, c: Key)
    requires Leq(a, b) && Leq(b, c)
    ensures Leq(a, c)
    decreases a, 1
  {
    match a
    case Num(_) =>
    case Text(s) => if c.Text? { TextTransitive(s, b.s, c.s); }
    case Tuple(xs) => TupleTransitive(xs, b.items, c.items);
  }

  lemma {:induction false} TupleTransitive(a: seq<Key>, b: seq<Key>, c: seq<Key>)
    requires TupleLeq(a, b) && TupleLeq(b, c)
    ensures TupleLeq(a, c)
    decreases a, 0
  {
    if a == [] {
    } else {
      if a[0] == b[0] && b[0] == c[0] {
        TupleTransitive(a[1..], b[1..], c[1..]);
      } else if a[0] != b[0] && b[0] != c[0] {
        Transitive(a[0], b[0], c[0]);
        Total(a[0], b[0]);
      }
    }
  }

  lemma FirstKeyLeq(a: Key, b: Key, m: int, n: int)
    requires a.Tuple? && b.Tuple? && a.items != [] && b.items != [] && a.items[0] == Num(m) && b.items[0] == Num(n)
    requires Leq(a, b)
    ensures m <= n
  {
    assert TupleLeq(a.items, b.items);
    assert a.items[0] == b.items[0] || Leq(a.items[0], b.items[0]);
  }

  // ---------- sorted(...) ----------

  // A list of keys by its first one.
  lemma HeadOrder(a: Key, more: seq<Key>, b: Key, others: seq<Key>)
    ensures TupleLeq([a] + more, [b] + others) <==> if a == b then TupleLeq(more, others) else Leq(a, b)
  {
    assert ([a] + more)[1..] == more && ([b] + others)[1..] == others;
  }

  ghost predicate Distinguishes<T(!new)>(key: T -> Key, s: set<T>) {
    forall x, y :: x in s && y in s && key(x) == key(y) ==> x == y
  }

  ghost predicate Ascending<T>(r: seq<T>, key: T -> Key) {
    forall i, j :: 0 <= i < j < |r| ==> Leq(key(r[i]), key(r[j]))
  }

  ghost predicate NoDuplicates<T>(r: seq<T>) {
    forall i, j :: 0 <= i < j < |r| ==> r[i] != r[j]
  }

  predicate IsLeast<T>(m: T, s: set<T>, key: T -> Key) {
    m in s && forall x :: x in s ==> Leq(key(m), key(x))
  }

  lemma {:induction false} LeastExists<T>(s: set<T>, key: T -> Key)
    requires s != {}
    ensures exists m :: IsLeast(m, s, key)
  {
    var x :| x in s;
    var rest := s - {x};
    if rest == {} {
      assert s == {x};
      Total(key(x), key(x));
      assert IsLeast(x, s, key);
    } else {
      LeastExists(rest, key);
      var m :| IsLeast(m, rest, key);
      Total(key(x), key(m));
      Total(key(x), key(x));
      if Leq(key(m), key(x)) {
        assert IsLeast(m, s, key);
      } else {
        forall y | y in rest ensures Leq(key(x), key(y)) {
          Transitive(key(x), key(m), key(y));
        }
        assert IsLeast(x, s, key);
      }
    }
  }

  // The elements of `s` in increasing key order.
  function Sorted<T(==, !new)>(s: set<T>, key: T -> Key): (r: seq<T>)
    requires Distinguishes(key, s)
    ensures Ascending(r, key) && NoDuplicates(r)
    ensures forall x :: x in r <==> x in s
    ensures |r| == |s|
  {
    if s == {} then []
    else
      LeastExists(s, key);
      LeastUnique(s, key);
      var m :| IsLeast(m, s, key);
      [m] + Sorted(s - {m}, key)
  }

  lemma LeastUnique<T(!new)>(s: set<T>, key: T -> Key)
    requires Distinguishes(key, s)
    ensures forall m, n :: IsLeast(m, s, key) && IsLeast(n, s, key) ==> m == n
  {
    forall m, n | IsLeast(m, s, key) && IsLeast(n, s, key) ensures m == n {
      Total(key(m), key(n));
    }
  }

  lemma SortedHead<T(!new)>(m: T, s: set<T>, key: T -> Key)
    requires Distinguishes(key, s) && IsLeast(m, s, key)
    ensures Sorted(s, key) == [m] + Sorted(s - {m}, key)
  {
    LeastUnique(s, key);
  }

  lemma PrefixCons<T>(m: T, a: seq<T>, b: seq<T>)
    requires a <= b
    ensures [m] + a <= [m] + b
  {}

  // When everything outside `s` comes after `s`, sorting the larger set starts by sorting `s`.
  lemma {:induction false} SortedPrefix<T(!new)>(s: set<T>, t: set<T>, key: T -> Key)
    requires Distinguishes(key, t) && s <= t
    requires forall x, y :: x in s && y in t && y !in s ==> Leq(key(x), key(y))
    ensures Sorted(s, key) <= Sorted(t, key)
  {
    if s == {} {
    } else {
      LeastExists(s, key);
      var m :| IsLeast(m, s, key);
      var s', t' := s - {m}, t - {m};
      SortedPrefix(s', t', key);
      assert Sorted(s, key) == [m] + Sorted(s', key) by { SortedHead(m, s, key); }
      assert Sorted(t, key) == [m] + Sorted(t', key) by {
        assert IsLeast(m, t, key);
        SortedHead(m, t, key);
      }
      PrefixCons(m, Sorted(s', key), Sorted(t', key));
    }
  }

  // Two sorted lists of the same elements are the same list.
  lemma {:induction false} SortedSame<T(!new)>(r: seq<T>, s: seq<T>, key: T -> Key)
    requires NoDuplicates(r) && NoDuplicates(s) && Ascending(r, key) && Ascending(s, key)
    requires forall x :: x in r <==> x in s
    requires forall x, y :: x in r && y in r && key(x) == key(y) ==> x == y
    ensures r == s
  {
    DistinctSize(r);
    DistinctSize(s);
    assert (set x | x in r) == (set x | x in s);
    if r == [] {
    } else {
      assert r[0] in s && s[0] in r;
      Total(key(r[0]), key(s[0]));
      assert r == [r[0]] + r[1..] && s == [s[0]] + s[1..];
      assert r[0] == s[0] && r[0] !in r[1..] && s[0] !in s[1..];
      forall x ensures x in r[1..] <==> x in s[1..] {
        assert (x in r <==> x == r[0] || x in r[1..]) && (x in s <==> x == s[0] || x in s[1..]);
      }
      SortedSame(r[1..], s[1..], key);
    }
  }

  // Neighbours in order put the whole list in order.
  lemma {:induction false} NeighboursAscend<T>(r: seq<T>, key: T -> Key)
    requires forall i :: 0 <= i < |r| - 1 ==> Leq(key(r[i]), key(r[i + 1]))
    ensures Ascending(r, key)
  {
    if r == [] {
    } else {
      var init := r[..|r| - 1];
      NeighboursAscend(init, key);
      forall i, j | 0 <= i < j < |r| ensures Leq(key(r[i]), key(r[j])) {
        if j < |init| {
          assert Leq(key(init[i]), key(init[j]));
        } else if i < j - 1 {
          assert Leq(key(init[i]), key(init[j - 1]));
          Transitive(key(r[i]), key(r[j - 1]), key(r[j]));
        }
      }
    }
  }

  // ---------- sorted(...) of a list ----------

  function Inserted<T>(x: T, r: seq<T>, key: T -> Key): (s: seq<T>)
    requires Ascending(r, key)
    ensures Ascending(s, key) && multiset(s) == multiset{x} + multiset(r)
    ensures s[0] == x || (r != [] && s[0] == r[0])
  {
    if r == [] then [x]
    else if Leq(key(x), key(r[0])) then
      InsertedFirst(x, r, key);
      [x] + r
    else
      var rest := Inserted(x, r[1..], key);
      InsertedLater(x, r, rest, key);
      [r[0]] + rest
  }

  lemma InsertedFirst<T>(x: T, r: seq<T>, key: T -> Key)
    requires r != [] && Ascending(r, key) && Leq(key(x), key(r[0]))
    ensures Ascending([x] + r, key)
  {
    forall j | 0 <= j < |r| ensures Leq(key(x), key(r[j])) {
      if j > 0 { Transitive(key(x), key(r[0]), key(r[j])); }
    }
  }

  lemma InsertedLater<T>(x: T, r: seq<T>, rest: seq<T>, key: T -> Key)
    requires r != [] && Ascending(r, key) && !Leq(key(x), key(r[0]))
    requires Ascending(rest, key) && multiset(rest) == multiset{x} + multiset(r[1..])
    ensures Ascending([r[0]] + rest, key)
    ensures multiset([r[0]] + rest) == multiset{x} + multiset(r)
  {
    assert r == [r[0]] + r[1..];
    Total(key(x), key(r[0]));
    forall j | 0 <= j < |rest| ensures Leq(key(r[0]), key(rest[j])) {
      assert rest[j] in multiset(rest);
      if rest[j] != x {
        assert rest[j] in r[1..];
        var i :| 0 <= i < |r[1..]| && r[1..][i] == rest[j];
        assert r[i + 1] == rest[j];
      }
    }
  }

  // Ascending keys, elements of equal key in the order they had.
  function StablySorted<T>(s: seq<T>, key: T -> Key): (r: seq<T>)
    ensures Ascending(r, key) && multiset(r) == multiset(s)
  {
    if s == [] then []
    else
      assert s == [s[0]] + s[1..];
      Inserted(s[0], StablySorted(s[1..], key), key)
  }

  // The elements with key `k`.
  function WithKey<T>(s: seq<T>, key: T -> Key, k: Key): seq<T> {
    if s == [] then [] else (if key(s[0]) == k then [s[0]] else []) + WithKey(s[1..], key, k)
  }

  lemma WithKeyFirst<T>(x: T, s: seq<T>, key: T -> Key, k: Key)
    ensures WithKey([x] + s, key, k) == (if key(x) == k then [x] else []) + WithKey(s, key, k)
  {
    assert ([x] + s)[1..] == s;
  }

  lemma WithKeyLater<T>(x: T, y: T, s: seq<T>, rest: seq<T>, key: T -> Key, k: Key)
    requires WithKey(rest, key, k) == WithKey([x] + s, key, k) && (key(x) != k || key(y) != k)
    ensures WithKey([y] + rest, key, k) == WithKey([x] + ([y] + s), key, k)
  {
    WithKeyFirst(y, rest, key, k);
    WithKeyFirst(x, s, key, k);
    WithKeyFirst(y, s, key, k);
    WithKeyFirst(x, [y] + s, key, k);
  }

  lemma {:induction false} InsertedWithKey<T>(x: T, r: seq<T>, key: T -> Key, k: Key)
    requires Ascending(r, key)
    ensures WithKey(Inserted(x, r, key), key, k) == WithKey([x] + r, key, k)
  {
    if r == [] {
      assert Inserted(x, r, key) == [x] + r;
    } else if !Leq(key(x), key(r[0])) {
      InsertedWithKey(x, r[1..], key, k);
      Total(k, k);
      WithKeyLater(x, r[0], r[1..], Inserted(x, r[1..], key), key, k);
      assert [r[0]] + r[1..] == r;
    }
  }

  // Elements of equal key stay in the order they had.
  lemma {:induction false} SortedIsStable<T>(s: seq<T>, key: T -> Key, k: Key)
    ensures WithKey(StablySorted(s, key), key, k) == WithKey(s, key, k)
  {
    if s == [] {
    } else {
      SortedIsStable(s[1..], key, k);
      InsertedWithKey(s[0], StablySorted(s[1..], key), key, k);
      WithKeyFirst(s[0], StablySorted(s[1..], key), key, k);
    }
  }

  // ---------- lists without duplicates ----------

  lemma LastApart<T>(r: seq<T>)
    requires r != []
    ensures r == r[..|r| - 1] + [r[|r| - 1]]
  {}

  lemma {:induction false} OnceEach<T>(r: seq<T>)
    ensures NoDuplicates(r) <==> forall x :: multiset(r)[x] <= 1
  {
    if r == [] {
    } else {
      var init, last := r[..|r| - 1], r[|r| - 1];
      OnceEach(init);
      assert r == init + [last];
      assert multiset(r) == multiset(init) + multiset{last};
      if NoDuplicates(r) {
        forall x ensures multiset(r)[x] <= 1 {
          if x == last { assert last !in init; }
        }
      } else if NoDuplicates(init) {
        var i, j :| 0 <= i < j < |r| && r[i] == r[j];
        assert r[i] != r[j] || init[i] == last;
        assert last in multiset(init);
        assert multiset(r)[last] > 1;
      } else {
        var x :| multiset(init)[x] > 1;
        assert multiset(r)[x] > 1;
      }
    }
  }

  lemma SamePermutation<T>(r: seq<T>, s: seq<T>)
    requires multiset(r) == multiset(s)
    ensures NoDuplicates(r) <==> NoDuplicates(s)
    ensures forall x :: x in r <==> x in s
  {
    OnceEach(r);
    OnceEach(s);
    assert forall x :: x in r <==> x in multiset(r);
    assert forall x :: x in s <==> x in multiset(s);
  }

  lemma NoDuplicatesConcat<T>(r: seq<T>, s: seq<T>)
    requires NoDuplicates(r) && NoDuplicates(s) && forall x :: x in r ==> x !in s
    ensures NoDuplicates(r + s)
  {
    forall i, j | 0 <= i < j < |r + s| ensures (r + s)[i] != (r + s)[j] {
      if i < |r| <= j { assert r[i] in r && s[j - |r|] in s; }
    }
  }

  lemma {:induction false} DistinctSize<T>(r: seq<T>)
    requires NoDuplicates(r)
    ensures |set x | x in r| == |r|
  {
    var all := set x | x in r;
    if r == [] {
    } else {
      var init, last := r[..|r| - 1], r[|r| - 1];
      DistinctSize(init);
      assert r == init + [last];
      assert all == (set x | x in init) + {last};
    }
  }
}
