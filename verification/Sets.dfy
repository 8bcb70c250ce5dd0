// Counting facts about finite sets.
module Sets {

  lemma {:induction false} SubsetSize<T>(s: set<T>, t: set<T>)
    requires s <= t
    ensures |s| <= |t|
  {
    if s == {} {
    } else {
      var x :| x in s;
      SubsetSize(s - {x}, t - {x});
    }
  }

  // A set every element of which is the image of an element of `s` is no larger than `s`.
  lemma {:induction false} ImageSize<T(!new), U(!new)>(s: set<T>, image: set<U>, f: T -> U)
    requires forall y :: y in image ==> exists x :: x in s && f(x) == y
    ensures |image| <= |s|
    decreases |image|
  {
    if image == {} {
    } else {
      var y :| y in image;
      var x :| x in s && f(x) == y;
      forall z | z in image - {y} ensures exists w :: w in s - {x} && f(w) == z {
        var w :| w in s && f(w) == z;
        assert w in s - {x};
      }
      ImageSize(s - {x}, image - {y}, f);
    }
  }

  // The first `n` numbers.
  function FirstNumbers(n: nat): (s: set<nat>)
    ensures |s| == n && forall i :: i in s <==> 0 <= i < n
  {
    if n == 0 then {} else FirstNumbers(n - 1) + {n - 1}
  }
}
