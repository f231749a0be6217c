/** Sorting by a total preorder, with the two facts its users need: the result is
    ordered and holds the same elements. */
module Sorting {
  import Shuffle

  ghost predicate Order<T(!new)>(leq: (T, T) -> bool) {
    && (forall a, b :: leq(a, b) || leq(b, a))
    && (forall a, b, c :: leq(a, b) && leq(b, c) ==> leq(a, c))
  }

  lemma Total<T(!new)>(leq: (T, T) -> bool, a: T, b: T)
    requires Order(leq)
    ensures leq(a, b) || leq(b, a)
  {}

  lemma Transitive<T(!new)>(leq: (T, T) -> bool, a: T, b: T, c: T)
    requires Order(leq) && leq(a, b) && leq(b, c)
    ensures leq(a, c)
  {}

  predicate Ordered<T>(leq: (T, T) -> bool, s: seq<T>) { forall i, j :: 0 <= i < j < |s| ==> leq(s[i], s[j]) }

  function Insert<T>(leq: (T, T) -> bool, x: T, s: seq<T>): (r: seq<T>) {
    if s == [] || leq(s[|s| - 1], x) then s + [x] else Insert(leq, x, s[..|s| - 1]) + [s[|s| - 1]]
  }

  function Sorted<T>(leq: (T, T) -> bool, s: seq<T>): (r: seq<T>) {
    if s == [] then [] else Insert(leq, s[|s| - 1], Sorted(leq, s[..|s| - 1]))
  }

  lemma {:induction false} InsertLaw<T(!new)>(leq: (T, T) -> bool, x: T, s: seq<T>)
    requires Order(leq) && Ordered(leq, s)
    ensures Ordered(leq, Insert(leq, x, s)) && multiset(Insert(leq, x, s)) == multiset(s) + multiset{x}
  {
    hide Order;
    if s != [] {
      var front, last := s[..|s| - 1], s[|s| - 1];
      assert s == front + [last];
      Total(leq, last, x);
      if leq(last, x) {
        forall i | 0 <= i < |s|
          ensures leq(s[i], x)
        {
          if i < |s| - 1 { Transitive(leq, s[i], last, x); }
        }
      } else {
        InsertLaw(leq, x, front);
        var r := Insert(leq, x, front);
        forall i | 0 <= i < |r|
          ensures leq(r[i], last)
        {
          assert r[i] in multiset(front) + multiset{x};
        }
      }
    }
  }

  lemma {:induction false} SortLaw<T(!new)>(leq: (T, T) -> bool, s: seq<T>)
    requires Order(leq)
    ensures Ordered(leq, Sorted(leq, s)) && multiset(Sorted(leq, s)) == multiset(s)
  {
    hide Order, Insert;
    if s != [] {
      var front := s[..|s| - 1];
      assert s == front + [s[|s| - 1]];
      SortLaw(leq, front);
      InsertLaw(leq, s[|s| - 1], Sorted(leq, front));
    }
  }

  /** Sorting a sequence that is already ordered changes nothing. */
  lemma {:induction false} SortedStays<T>(leq: (T, T) -> bool, s: seq<T>)
    requires Ordered(leq, s)
    ensures Sorted(leq, s) == s
  {
    if s != [] {
      var front := s[..|s| - 1];
      SortedStays(leq, front);
      assert Insert(leq, s[|s| - 1], front) == s by {
        if front != [] { assert leq(front[|front| - 1], s[|s| - 1]); }
      }
    }
  }

  method Sort<T>(leq: (T, T) -> bool, s: seq<T>) returns (r: seq<T>)
    ensures r == Sorted(leq, s)
  {
    r := [];
    var i := 0;
    while i < |s|
      invariant 0 <= i <= |s| && r == Sorted(leq, s[..i])
    {
      assert s[..i + 1][..i] == s[..i];
      r := Insert(leq, s[i], r);
      i := i + 1;
    }
    assert s[..i] == s;
  }
}
