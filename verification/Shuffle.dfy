/** Reorderings: taking one element out of two sequences with the same contents. */
module Shuffle {
  lemma Snoc<T>(a: seq<T>, b: seq<T>)
    requires b != []
    ensures a + b == (a + b[..|b| - 1]) + [b[|b| - 1]] && b == b[..|b| - 1] + [b[|b| - 1]]
  {}

  lemma Counted<T>(x: seq<T>, t: T, y: seq<T>)
    ensures multiset(x + [t] + y) == multiset(x + y) + multiset{t}
  {
    assert multiset(x + y) == multiset(x) + multiset(y);
    assert multiset(x + [t] + y) == multiset(x + [t]) + multiset(y);
  }

  lemma Regroup<T>(p: seq<T>, x: seq<T>, c: seq<T>, y: seq<T>)
    requires multiset(p) == multiset(x + y)
    ensures multiset(p + c) == multiset(x + c + y)
  {
    assert multiset(x + y) == multiset(x) + multiset(y) && multiset(x + c + y) == multiset(x) + multiset(c) + multiset(y);
  }

  lemma SameLength<T>(a: seq<T>, b: seq<T>)
    requires multiset(a) == multiset(b)
    ensures |a| == |b|
  {
    assert |multiset(a)| == |a| && |multiset(b)| == |b|;
  }

  /** The place of the last element of one reordering in the other. */
  lemma Matched<T>(a: seq<T>, b: seq<T>) returns (k: nat)
    requires multiset(a) == multiset(b) && a != []
    ensures k < |b| && b[k] == a[|a| - 1] && b == b[..k] + [b[k]] + b[k + 1..]
    ensures multiset(a[..|a| - 1]) == multiset(b[..k] + b[k + 1..])
  {
    var t, front := a[|a| - 1], a[..|a| - 1];
    Snoc([], a);
    k := Place(b, t) by { assert t in multiset(a); }
    Around(b, k);
    Counted(b[..k], t, b[k + 1..]);
    assert multiset(front + [t]) == multiset(front) + multiset{t};
    Cancel(multiset(front), multiset(b[..k] + b[k + 1..]), t);
  }

  lemma Place<T>(b: seq<T>, t: T) returns (k: nat)
    requires t in multiset(b)
    ensures k < |b| && b[k] == t
  {
    k :| 0 <= k < |b| && b[k] == t;
  }

  lemma Cancel<T>(x: multiset<T>, y: multiset<T>, t: T)
    requires x + multiset{t} == y + multiset{t}
    ensures x == y
  {
    assert x == x + multiset{t} - multiset{t} && y == y + multiset{t} - multiset{t};
  }

  lemma Around<T>(b: seq<T>, k: nat)
    requires k < |b|
    ensures b == b[..k] + [b[k]] + b[k + 1..]
  {}
}
