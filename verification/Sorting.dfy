/** sort.Slice, by what it guarantees: the same elements, in order. Elements the order does not tell apart may
    come out either way round there, so nothing below is used to say which of them comes first. */
module Sorting {
  ghost predicate IsTotalOrder<T(!new)>(le: (T, T) -> bool) {
    && (forall a, b :: le(a, b) || le(b, a))
    && (forall a, b, c :: le(a, b) && le(b, c) ==> le(a, c))
  }

  ghost predicate IsOrdered<T>(xs: seq<T>, le: (T, T) -> bool) {
    forall i, j :: 0 <= i < j < |xs| ==> le(xs[i], xs[j])
  }

  function Inserted<T>(x: T, xs: seq<T>, le: (T, T) -> bool): seq<T> {
    if xs == [] || le(x, xs[0]) then [x] + xs else [xs[0]] + Inserted(x, xs[1..], le)
  }

  function Sorted<T>(xs: seq<T>, le: (T, T) -> bool): seq<T> {
    if xs == [] then [] else Inserted(xs[0], Sorted(xs[1..], le), le)
  }

  lemma {:induction false} InsertedHasElements<T>(x: T, xs: seq<T>, le: (T, T) -> bool)
    ensures multiset(Inserted(x, xs, le)) == multiset(xs) + multiset{x}
  {
    if !(xs == [] || le(x, xs[0])) {
      InsertedHasElements(x, xs[1..], le);
      assert xs == [xs[0]] + xs[1..];
    }
  }

  lemma {:induction false} SortedHasElements<T>(xs: seq<T>, le: (T, T) -> bool)
    ensures multiset(Sorted(xs, le)) == multiset(xs) && |Sorted(xs, le)| == |xs|
  {
    if xs != [] {
      SortedHasElements(xs[1..], le);
      InsertedHasElements(xs[0], Sorted(xs[1..], le), le);
      assert xs == [xs[0]] + xs[1..];
    }
    assert |multiset(Sorted(xs, le))| == |Sorted(xs, le)|;
  }

  lemma {:induction false} InsertedIsOrdered<T(!new)>(x: T, xs: seq<T>, le: (T, T) -> bool)
    requires IsTotalOrder(le) && IsOrdered(xs, le)
    ensures IsOrdered(Inserted(x, xs, le), le)
  {
    if !(xs == [] || le(x, xs[0])) {
      var rest := Inserted(x, xs[1..], le);
      InsertedIsOrdered(x, xs[1..], le);
      InsertedHasElements(x, xs[1..], le);
      forall y | y in rest ensures le(xs[0], y) {
        assert y in multiset(rest);
        assert y == x || y in xs[1..];
      }
    }
  }

  lemma {:induction false} SortedIsOrdered<T(!new)>(xs: seq<T>, le: (T, T) -> bool)
    requires IsTotalOrder(le)
    ensures IsOrdered(Sorted(xs, le), le)
  {
    if xs != [] {
      SortedIsOrdered(xs[1..], le);
      InsertedIsOrdered(xs[0], Sorted(xs[1..], le), le);
    }
  }

  lemma {:induction false} OrderedStays<T>(xs: seq<T>, le: (T, T) -> bool)
    requires IsOrdered(xs, le)
    ensures Sorted(xs, le) == xs
  {
    if xs != [] {
      OrderedStays(xs[1..], le);
    }
  }
}
