/** What the chart-pattern detectors find, said of the bars alone: for each of the eight,
    which bars form the pattern, that the detector reports the first of them (for a wedge
    the last close beyond it) and with which numbers, and that it reports nothing exactly
    when no bars do. */
module PatternMeaning {
  import opened Wrappers
  import opened Patterns

  // ---- the bars -----------------------------------------------------------

  /** No bar within `k` on either side is higher, and those bars are all there. */
  ghost predicate SwingHigh(b: seq<Bar>, k: nat, i: int) {
    k <= i < |b| - k && forall j :: i - k <= j <= i + k ==> b[j].h <= b[i].h
  }

  ghost predicate SwingLow(b: seq<Bar>, k: nat, i: int) {
    k <= i < |b| - k && forall j :: i - k <= j <= i + k ==> b[i].l <= b[j].l
  }

  /** Two swing highs with none between. */
  ghost predicate NextHighs(b: seq<Bar>, k: nat, i1: int, i2: int) {
    i1 < i2 && SwingHigh(b, k, i1) && SwingHigh(b, k, i2) && forall m :: i1 < m < i2 ==> !SwingHigh(b, k, m)
  }

  ghost predicate NextLows(b: seq<Bar>, k: nat, i1: int, i2: int) {
    i1 < i2 && SwingLow(b, k, i1) && SwingLow(b, k, i2) && forall m :: i1 < m < i2 ==> !SwingLow(b, k, m)
  }

  /** The least low of the bars from `lo` up to but not including `hi`. */
  ghost predicate LeastLow(b: seq<Bar>, lo: int, hi: int, x: real) {
    && 0 <= lo && hi <= |b| && (exists m :: lo <= m < hi && b[m].l == x)
    && forall m :: lo <= m < hi ==> x <= b[m].l
  }

  ghost predicate GreatestHigh(b: seq<Bar>, lo: int, hi: int, x: real) {
    && 0 <= lo && hi <= |b| && (exists m :: lo <= m < hi && b[m].h == x)
    && forall m :: lo <= m < hi ==> b[m].h <= x
  }

  function Distance(x: real, y: real): (d: real) { if x < y then y - x else x - y }

  /** A share of a whole, at most the whole. */
  function Part(x: real, whole: real): (r: real)
    requires whole > 0.0
  {
    if x < whole then x / whole else 1.0
  }

  lemma PartIs(x: real, scale: real, a: real)
    requires scale > 0.0 && a > 0.0
    ensures scale * a > 0.0 && Strength(x, scale, a) == Part(x, scale * a)
  {
    var whole := scale * a;
    var q := x / whole;
    assert q * whole == x;
    Scaled(q, 1.0, whole);
  }

  lemma Scaled(x: real, y: real, z: real)
    requires z > 0.0
    ensures x < y <==> x * z < y * z
  {}

  /** The detectors raise exactly on a range that is not positive and on a bar whose high
      is below its low, the range first. */
  lemma ErrorsMean(p: Params, kind: Kind, b: seq<Bar>, a: real)
    ensures Detect(p, kind, b, a) == Err("PATTERN_ATR_QX") <==> a <= 0.0
    ensures Detect(p, kind, b, a) == Err("PATTERN_BAR_QX") <==> a > 0.0 && exists i :: 0 <= i < |b| && b[i].h < b[i].l
    ensures Detect(p, kind, b, a).Ok? <==> a > 0.0 && forall i :: 0 <= i < |b| ==> b[i].l <= b[i].h
  {
    hide OnSwings, SwingsOf;
    if a > 0.0 && !WellFormed(b) {
      var i :| 0 <= i < |b| && !(b[i].h >= b[i].l);
    }
  }

  // ---- the detectors' own lists -------------------------------------------

  lemma SwingMeans(b: seq<Bar>, k: nat, i: int)
    requires k <= i < |b| - k
    ensures IsHigh(b, k, i) <==> SwingHigh(b, k, i)
    ensures IsLow(b, k, i) <==> SwingLow(b, k, i)
  {
    HighMeans(b, k, i);
    LowMeans(b, k, i);
  }

  lemma HighMeans(b: seq<Bar>, k: nat, i: int)
    requires k <= i < |b| - k
    ensures IsHigh(b, k, i) <==> SwingHigh(b, k, i)
  {
    hide MaxOf, MinOf;
    var hs := Highs(b)[i - k..i + k + 1];
    forall j | i - k <= j <= i + k
      ensures b[j].h <= MaxOf(hs)
    {
      ExtremesLaw(hs, j - (i - k));
      assert hs[j - (i - k)] == b[j].h;
    }
    ExtremesLaw(hs, k);
    var n :| 0 <= n < |hs| && hs[n] == MaxOf(hs);
    assert b[i - k + n].h == hs[n];
  }

  lemma LowMeans(b: seq<Bar>, k: nat, i: int)
    requires k <= i < |b| - k
    ensures IsLow(b, k, i) <==> SwingLow(b, k, i)
  {
    hide MaxOf, MinOf;
    var ls := Lows(b)[i - k..i + k + 1];
    forall j | i - k <= j <= i + k
      ensures MinOf(ls) <= b[j].l
    {
      ExtremesLaw(ls, j - (i - k));
      assert ls[j - (i - k)] == b[j].l;
    }
    ExtremesLaw(ls, k);
    var n :| 0 <= n < |ls| && ls[n] == MinOf(ls);
    assert b[i - k + n].l == ls[n];
  }

  ghost predicate At(ps: Points, i: int) { exists n :: 0 <= n < |ps| && ps[n].0 == i }

  ghost predicate Ascends(ps: Points) { forall n, o :: 0 <= n < o < |ps| ==> ps[n].0 < ps[o].0 }

  /** The swing highs before `m`, each once and in order. */
  ghost predicate ListsHighs(ps: Points, b: seq<Bar>, k: nat, m: int) {
    && Ascends(ps) && (forall i :: i < m && SwingHigh(b, k, i) ==> At(ps, i))
    && forall n :: 0 <= n < |ps| ==> ps[n].0 < m && SwingHigh(b, k, ps[n].0) && ps[n].1 == b[ps[n].0].h
  }

  ghost predicate ListsLows(ps: Points, b: seq<Bar>, k: nat, m: int) {
    && Ascends(ps) && (forall i :: i < m && SwingLow(b, k, i) ==> At(ps, i))
    && forall n :: 0 <= n < |ps| ==> ps[n].0 < m && SwingLow(b, k, ps[n].0) && ps[n].1 == b[ps[n].0].l
  }

  lemma AtOneMore(ps: Points, q: (int, real), i: int)
    ensures At(ps + [q], i) <==> At(ps, i) || q.0 == i
  {
    var qs := ps + [q];
    assert qs[|ps|] == q && forall n :: 0 <= n < |ps| ==> qs[n] == ps[n];
  }

  lemma {:induction false} HighsAreListed(b: seq<Bar>, k: nat, m: int)
    requires m <= |b| - k || m <= k
    ensures ListsHighs(HighsTo(b, k, m), b, k, m)
    decreases m - k
  {
    hide IsHigh, IsLow, SwingHigh, SwingLow, ListsHighs;
    if m > k {
      HighsAreListed(b, k, m - 1);
      SwingMeans(b, k, m - 1);
      var ps := HighsTo(b, k, m - 1);
      assert ps + [] == ps;
      OneMoreHigh(ps, b, k, m - 1);
    } else {
      assert ListsHighs([], b, k, m) by { NoHighs(b, k, m); }
    }
  }

  lemma NoHighs(b: seq<Bar>, k: nat, m: int)
    requires m <= k
    ensures ListsHighs([], b, k, m)
  {}

  lemma OneMoreHigh(ps: Points, b: seq<Bar>, k: nat, m: int)
    requires ListsHighs(ps, b, k, m) && 0 <= m < |b|
    ensures SwingHigh(b, k, m) ==> ListsHighs(ps + [(m, b[m].h)], b, k, m + 1)
    ensures !SwingHigh(b, k, m) ==> ListsHighs(ps, b, k, m + 1)
  {
    hide At, SwingHigh;
    var q := (m, b[m].h);
    forall i
      ensures At(ps + [q], i) <==> At(ps, i) || m == i
    {
      AtOneMore(ps, q, i);
    }
  }

  lemma {:induction false} LowsAreListed(b: seq<Bar>, k: nat, m: int)
    requires m <= |b| - k || m <= k
    ensures ListsLows(LowsTo(b, k, m), b, k, m)
    decreases m - k
  {
    hide IsHigh, IsLow, SwingHigh, SwingLow, ListsLows;
    if m > k {
      LowsAreListed(b, k, m - 1);
      SwingMeans(b, k, m - 1);
      var ps := LowsTo(b, k, m - 1);
      assert ps + [] == ps;
      OneMoreLow(ps, b, k, m - 1);
    } else {
      assert ListsLows([], b, k, m) by { NoLows(b, k, m); }
    }
  }

  lemma NoLows(b: seq<Bar>, k: nat, m: int)
    requires m <= k
    ensures ListsLows([], b, k, m)
  {}

  lemma OneMoreLow(ps: Points, b: seq<Bar>, k: nat, m: int)
    requires ListsLows(ps, b, k, m) && 0 <= m < |b|
    ensures SwingLow(b, k, m) ==> ListsLows(ps + [(m, b[m].l)], b, k, m + 1)
    ensures !SwingLow(b, k, m) ==> ListsLows(ps, b, k, m + 1)
  {
    hide At, SwingLow;
    var q := (m, b[m].l);
    forall i
      ensures At(ps + [q], i) <==> At(ps, i) || m == i
    {
      AtOneMore(ps, q, i);
    }
  }

  lemma InOrder(ps: Points, n: int, o: int)
    requires Ascends(ps) && 0 <= n < |ps| && 0 <= o < |ps|
    ensures n < o <==> ps[n].0 < ps[o].0
  {
    if o < n { assert ps[o].0 < ps[n].0; }
  }

  /** Neighbours in the list are neighbours on the bars, and the other way round. */
  lemma NeighboursAreNext(ps: Points, b: seq<Bar>, k: nat, n: int)
    requires ListsHighs(ps, b, k, |b| - k) && 1 <= n < |ps|
    ensures NextHighs(b, k, ps[n - 1].0, ps[n].0)
  {
    hide SwingHigh, Ascends;
    InOrder(ps, n - 1, n);
    forall m | ps[n - 1].0 < m < ps[n].0
      ensures !SwingHigh(b, k, m)
    {
      if SwingHigh(b, k, m) {
        InRange(b, k, m);
        var o :| 0 <= o < |ps| && ps[o].0 == m;
        InOrder(ps, n - 1, o);
        InOrder(ps, o, n);
      }
    }
  }

  lemma InRange(b: seq<Bar>, k: nat, m: int)
    ensures SwingHigh(b, k, m) ==> k <= m < |b| - k
    ensures SwingLow(b, k, m) ==> k <= m < |b| - k
  {}

  lemma SwingsOnBars(b: seq<Bar>, k: nat)
    ensures forall i :: SwingHigh(b, k, i) ==> 0 <= i < |b|
    ensures forall i :: SwingLow(b, k, i) ==> 0 <= i < |b|
  {}

  lemma NextAreNeighbours(ps: Points, b: seq<Bar>, k: nat, i1: int, i2: int) returns (n: int)
    requires ListsHighs(ps, b, k, |b| - k) && NextHighs(b, k, i1, i2)
    ensures 1 <= n < |ps| && ps[n - 1].0 == i1 && ps[n].0 == i2
  {
    hide SwingHigh, Ascends;
    InRange(b, k, i1);
    InRange(b, k, i2);
    assert At(ps, i1) && At(ps, i2);
    n :| 0 <= n < |ps| && ps[n].0 == i2;
    var o :| 0 <= o < |ps| && ps[o].0 == i1;
    InOrder(ps, o, n);
    if o < n - 1 {
      assert SwingHigh(b, k, ps[n - 1].0);
      InOrder(ps, o, n - 1);
      InOrder(ps, n - 1, n);
    }
  }

  // ---- first closes -------------------------------------------------------

  lemma {:induction false} FirstBelowMeans(cs: seq<real>, j: int, level: real)
    requires 0 <= j
    ensures var r := FirstBelow(cs, j, level);
            && (r.None? ==> forall m :: j <= m < |cs| ==> cs[m] >= level)
            && (r.Some? ==> j <= r.value < |cs| && cs[r.value] < level && forall m :: j <= m < r.value ==> cs[m] >= level)
    decreases |cs| - j
  {
    if j < |cs| { FirstBelowMeans(cs, j + 1, level); }
  }

  lemma {:induction false} FirstAboveMeans(cs: seq<real>, j: int, level: real)
    requires 0 <= j
    ensures var r := FirstAbove(cs, j, level);
            && (r.None? ==> forall m :: j <= m < |cs| ==> cs[m] <= level)
            && (r.Some? ==> j <= r.value < |cs| && cs[r.value] > level && forall m :: j <= m < r.value ==> cs[m] <= level)
    decreases |cs| - j
  {
    if j < |cs| { FirstAboveMeans(cs, j + 1, level); }
  }

  lemma {:induction false} LastBelowMeans(cs: seq<real>, n: nat, level: real)
    requires n <= |cs|
    ensures var r := LastBelow(cs, n, level);
            && (r.None? ==> forall m :: 0 <= m < n ==> cs[m] >= level)
            && (r.Some? ==> 0 <= r.value < n && cs[r.value] < level && forall m :: r.value < m < n ==> cs[m] >= level)
  {
    if n > 0 { LastBelowMeans(cs, n - 1, level); }
  }

  lemma LeastLowIsMin(b: seq<Bar>, lo: int, hi: int)
    requires 0 <= lo < hi <= |b|
    ensures LeastLow(b, lo, hi, MinOf(Lows(b)[lo..hi]))
  {
    var ls := Lows(b)[lo..hi];
    forall m | lo <= m < hi
      ensures MinOf(ls) <= b[m].l
    {
      ExtremesLaw(ls, m - lo);
      assert ls[m - lo] == b[m].l;
    }
    ExtremesLaw(ls, 0);
    var n :| 0 <= n < |ls| && ls[n] == MinOf(ls);
    assert b[lo + n].l == ls[n];
  }

  lemma LeastLowIsOne(b: seq<Bar>, lo: int, hi: int, x: real, y: real)
    requires LeastLow(b, lo, hi, x) && LeastLow(b, lo, hi, y)
    ensures x == y
  {
    var m :| lo <= m < hi && b[m].l == x;
    var n :| lo <= n < hi && b[n].l == y;
  }

  // ---- double tops and bottoms --------------------------------------------

  /** Two neighbouring swing highs alike up to the tolerance, with a bar between them, and
      a later close below every low between them by more than eps. */
  ghost predicate Top(p: Params, b: seq<Bar>, a: real, i1: int, i2: int, j: int) {
    && NextHighs(b, p.lookback, i1, i2) && 0 <= i1 && i1 + 1 < i2 < j < |b|
    && Distance(b[i1].h, b[i2].h) <= p.thetaEq * a
    && forall m :: i1 < m < i2 ==> b[j].c < b[m].l - p.eps
  }

  ghost predicate Bottom(p: Params, b: seq<Bar>, a: real, i1: int, i2: int, j: int) {
    && NextLows(b, p.lookback, i1, i2) && 0 <= i1 && i1 + 1 < i2 < j < |b|
    && Distance(b[i1].l, b[i2].l) <= p.thetaEq * a
    && forall m :: i1 < m < i2 ==> b[j].c > b[m].h + p.eps
  }

  /** The first such pair's first such close. */
  ghost predicate FirstTop(p: Params, b: seq<Bar>, a: real, i1: int, i2: int, j: int, pivot: real) {
    && Top(p, b, a, i1, i2, j) && LeastLow(b, i1 + 1, i2, pivot)
    && forall h1, h2, c :: Top(p, b, a, h1, h2, c) ==> i2 < h2 || (i2 == h2 && j <= c)
  }

  ghost predicate FirstBottom(p: Params, b: seq<Bar>, a: real, i1: int, i2: int, j: int, pivot: real) {
    && Bottom(p, b, a, i1, i2, j) && GreatestHigh(b, i1 + 1, i2, pivot)
    && forall h1, h2, c :: Bottom(p, b, a, h1, h2, c) ==> i2 < h2 || (i2 == h2 && j <= c)
  }

  ghost predicate ReportsTop(p: Params, b: seq<Bar>, a: real, hit: Hit)
    requires a > 0.0
  {
    exists i1, i2, j, pivot :: FirstTop(p, b, a, i1, i2, j, pivot)
      && hit == Hit(DOUBLE_TOP, -1, j, b[i2].h, UP, Twins(b[i1].h, b[i2].h, pivot), Part(Distance(b[i2].h, pivot), 2.0 * a))
  }

  ghost predicate ReportsBottom(p: Params, b: seq<Bar>, a: real, hit: Hit)
    requires a > 0.0
  {
    exists i1, i2, j, pivot :: FirstBottom(p, b, a, i1, i2, j, pivot)
      && hit == Hit(DOUBLE_BOTTOM, 1, j, b[i2].l, DOWN, Twins(b[i1].l, b[i2].l, pivot), Part(Distance(pivot, b[i2].l), 2.0 * a))
  }

  lemma BelowAllIsBelowLeast(b: seq<Bar>, lo: int, hi: int, x: real, c: real, eps: real)
    requires LeastLow(b, lo, hi, x)
    ensures c < x - eps <==> forall m :: lo <= m < hi ==> c < b[m].l - eps
  {
    var m :| lo <= m < hi && b[m].l == x;
  }

  ghost predicate NoTopAt(p: Params, b: seq<Bar>, a: real, i1: int, i2: int) { forall j :: !Top(p, b, a, i1, i2, j) }

  /** One neighbouring pair: the report is its first close below. */
  ghost predicate TopOfPair(p: Params, b: seq<Bar>, a: real, i1: int, i2: int, hit: Hit)
    requires a > 0.0
  {
    && Top(p, b, a, i1, i2, hit.index) && (forall j :: Top(p, b, a, i1, i2, j) ==> hit.index <= j)
    && exists pivot :: LeastLow(b, i1 + 1, i2, pivot)
         && hit == Hit(DOUBLE_TOP, -1, hit.index, b[i2].h, UP, Twins(b[i1].h, b[i2].h, pivot), Part(Distance(b[i2].h, pivot), 2.0 * a))
  }

  lemma PairMeans(p: Params, a: real, b: seq<Bar>, s: Swings, n: nat)
    requires a > 0.0 && PlacedSwings(s, |b|) && ListsHighs(s.highs, b, p.lookback, |b| - p.lookback) && 1 <= n < |s.highs|
    ensures var r, i1, i2 := DoubleTopAt(p, a, b, s, n), s.highs[n - 1].0, s.highs[n].0;
            && (r.None? ==> NoTopAt(p, b, a, i1, i2))
            && (r.Some? ==> TopOfPair(p, b, a, i1, i2, r.value))
  {
    hide NextHighs, SwingHigh, LeastLow, Strength, At, Lows;
    var (i1, h1) := s.highs[n - 1];
    var (i2, h2) := s.highs[n];
    NeighboursAreNext(s.highs, b, p.lookback, n);
    var between := Slice(Lows(b), i1 + 1, i2);
    LowsLength(b);
    assert Distance(h1, h2) == Abs(h1 - h2);
    if between != [] {
      var pivot := MinOf(between);
      LeastLowIsMin(b, i1 + 1, i2);
      FirstBelowMeans(Closes(b), i2 + 1, pivot - p.eps);
      PartIs(Abs(h2 - pivot), 2.0, a);
      assert Distance(h2, pivot) == Abs(h2 - pivot);
      forall j | i2 < j < |b|
        ensures Top(p, b, a, i1, i2, j) <==> Alike(h1, h2, p.thetaEq, a) && Closes(b)[j] < pivot - p.eps
      {
        BelowAllIsBelowLeast(b, i1 + 1, i2, pivot, b[j].c, p.eps);
      }
    }
  }

  lemma LowsLength(b: seq<Bar>)
    ensures |Lows(b)| == |b|
  {}

  lemma {:induction false} FirstPairMeans(p: Params, a: real, b: seq<Bar>, s: Swings, i: nat)
    requires 1 <= i && PlacedSwings(s, |b|) && a > 0.0
    ensures var r := DoubleTopFrom(p, a, b, s, i);
            && (r.None? ==> forall n :: i <= n < |s.highs| ==> DoubleTopAt(p, a, b, s, n).None?)
            && (r.Some? ==> exists n :: i <= n < |s.highs| && DoubleTopAt(p, a, b, s, n) == r
                                        && forall m :: i <= m < n ==> DoubleTopAt(p, a, b, s, m).None?)
    decreases |s.highs| - i
  {
    hide DoubleTopAt, PlacedSwings;
    if i < |s.highs| { FirstPairMeans(p, a, b, s, i + 1); }
  }

  lemma TopFound(p: Params, b: seq<Bar>, a: real)
    requires a > 0.0 && WellFormed(b)
    ensures var r := Detect(p, DOUBLE_TOP, b, a);
            && (r == Ok(None) ==> forall i1, i2, j :: !Top(p, b, a, i1, i2, j))
            && (r.Ok? && r.value.Some? ==> ReportsTop(p, b, a, r.value.value))
  {
    hide DoubleTopAt, DoubleTopFrom, TopOfPair, NextHighs, WellFormed, ListsHighs, HighsTo, LowsTo, LeastLow;
    var s := SwingsOf(b, p.lookback);
    OwnSwingsArePlaced(b, p.lookback);
    HighsAreListed(b, p.lookback, |b| - p.lookback);
    FirstPairMeans(p, a, b, s, 1);
    var r := DoubleTopFrom(p, a, b, s, 1);
    if r.None? {
      forall i1, i2, j
        ensures !Top(p, b, a, i1, i2, j)
      {
        if Top(p, b, a, i1, i2, j) {
          var n := NextAreNeighbours(s.highs, b, p.lookback, i1, i2);
          PairMeans(p, a, b, s, n);
        }
      }
    } else {
      var n :| 1 <= n < |s.highs| && DoubleTopAt(p, a, b, s, n) == r && forall m :: 1 <= m < n ==> DoubleTopAt(p, a, b, s, m).None?;
      PairMeans(p, a, b, s, n);
      FirstOfPairs(p, a, b, s, n, r.value);
    }
  }

  lemma FirstOfPairs(p: Params, a: real, b: seq<Bar>, s: Swings, n: nat, hit: Hit)
    requires a > 0.0 && PlacedSwings(s, |b|) && ListsHighs(s.highs, b, p.lookback, |b| - p.lookback) && 1 <= n < |s.highs|
    requires forall m :: 1 <= m < n ==> DoubleTopAt(p, a, b, s, m).None?
    requires TopOfPair(p, b, a, s.highs[n - 1].0, s.highs[n].0, hit)
    ensures ReportsTop(p, b, a, hit)
  {
    hide DoubleTopAt, NextHighs, LeastLow, SwingHigh, At;
    var i1, i2, j := s.highs[n - 1].0, s.highs[n].0, hit.index;
    forall h1, h2, c | Top(p, b, a, h1, h2, c)
      ensures i2 < h2 || (i2 == h2 && j <= c)
    {
      var m := NextAreNeighbours(s.highs, b, p.lookback, h1, h2);
      if m < n { PairMeans(p, a, b, s, m); }
      if n < m { assert s.highs[n].0 < s.highs[m].0; }
    }
    var pivot :| LeastLow(b, i1 + 1, i2, pivot)
      && hit == Hit(DOUBLE_TOP, -1, j, b[i2].h, UP, Twins(b[i1].h, b[i2].h, pivot), Part(Distance(b[i2].h, pivot), 2.0 * a));
    assert Top(p, b, a, i1, i2, j);
    assert FirstTop(p, b, a, i1, i2, j, pivot);
  }

  lemma PreviousIsOne(b: seq<Bar>, k: nat, i: int, j: int, next: int)
    requires NextHighs(b, k, i, next) && NextHighs(b, k, j, next)
    ensures i == j
  {
    hide SwingHigh;
  }

  lemma FirstTopIsOne(p: Params, b: seq<Bar>, a: real, i1: int, i2: int, j: int, x: real, h1: int, h2: int, c: int, y: real)
    requires FirstTop(p, b, a, i1, i2, j, x) && FirstTop(p, b, a, h1, h2, c, y)
    ensures i1 == h1 && i2 == h2 && j == c && x == y
  {
    hide NextHighs, LeastLow;
    PreviousIsOne(b, p.lookback, i1, h1, i2);
    LeastLowIsOne(b, i1 + 1, i2, x, y);
  }

  /** The double top, sound and complete: what is reported is the first qualifying pair's
      first close below, and nothing is reported exactly when no pair qualifies. */
  lemma DoubleTopMeans(p: Params, b: seq<Bar>, a: real, hit: Hit)
    requires a > 0.0 && forall i :: 0 <= i < |b| ==> b[i].l <= b[i].h
    ensures Detect(p, DOUBLE_TOP, b, a) == Ok(Some(hit)) <==> ReportsTop(p, b, a, hit)
    ensures Detect(p, DOUBLE_TOP, b, a) == Ok(None) <==> forall i1, i2, j :: !Top(p, b, a, i1, i2, j)
  {
    hide Detect, ReportsTop, Top;
    ErrorsMean(p, DOUBLE_TOP, b, a);
    TopFound(p, b, a);
    var r := Detect(p, DOUBLE_TOP, b, a).value;
    if r.Some? { OneTopReport(p, b, a, r.value, r.value); }
    if ReportsTop(p, b, a, hit) {
      OneTopReport(p, b, a, hit, hit);
      OneTopReport(p, b, a, hit, r.value);
    }
  }

  lemma OneTopReport(p: Params, b: seq<Bar>, a: real, hit: Hit, other: Hit)
    requires a > 0.0 && ReportsTop(p, b, a, hit) && ReportsTop(p, b, a, other)
    ensures hit == other && exists i1, i2, j :: Top(p, b, a, i1, i2, j)
  {
    hide NextHighs, LeastLow, Part, Distance;
    var i1, i2, j, x :| FirstTop(p, b, a, i1, i2, j, x)
      && hit == Hit(DOUBLE_TOP, -1, j, b[i2].h, UP, Twins(b[i1].h, b[i2].h, x), Part(Distance(b[i2].h, x), 2.0 * a));
    var h1, h2, c, y :| FirstTop(p, b, a, h1, h2, c, y)
      && other == Hit(DOUBLE_TOP, -1, c, b[h2].h, UP, Twins(b[h1].h, b[h2].h, y), Part(Distance(b[h2].h, y), 2.0 * a));
    FirstTopIsOne(p, b, a, i1, i2, j, x, h1, h2, c, y);
  }

  // ---- the other way up ---------------------------------------------------

  lemma TurnedBar(b: seq<Bar>, i: int)
    ensures |Turned(b)| == |b| && (0 <= i < |b| ==> Turned(b)[i] == Bar(-b[i].l, -b[i].h, -b[i].c))
  {}

  lemma SwingTurned(b: seq<Bar>, k: nat, i: int)
    ensures SwingHigh(Turned(b), k, i) <==> SwingLow(b, k, i)
    ensures SwingLow(Turned(b), k, i) <==> SwingHigh(b, k, i)
  {
    hide Turned;
    var t := Turned(b);
    TurnedBar(b, 0);
    forall j
      ensures |t| == |b| && (0 <= j < |b| ==> t[j] == Bar(-b[j].l, -b[j].h, -b[j].c))
    {
      TurnedBar(b, j);
    }
    if SwingLow(b, k, i) {
      forall j | i - k <= j <= i + k ensures t[j].h <= t[i].h { assert b[i].l <= b[j].l; }
    }
    if SwingHigh(t, k, i) {
      forall j | i - k <= j <= i + k ensures b[i].l <= b[j].l { assert t[j].h <= t[i].h; }
    }
    if SwingHigh(b, k, i) {
      forall j | i - k <= j <= i + k ensures t[i].l <= t[j].l { assert b[j].h <= b[i].h; }
    }
    if SwingLow(t, k, i) {
      forall j | i - k <= j <= i + k ensures b[j].h <= b[i].h { assert t[i].l <= t[j].l; }
    }
  }

  lemma NextTurned(b: seq<Bar>, k: nat, i1: int, i2: int)
    ensures NextHighs(Turned(b), k, i1, i2) <==> NextLows(b, k, i1, i2)
    ensures NextLows(Turned(b), k, i1, i2) <==> NextHighs(b, k, i1, i2)
  {
    hide SwingHigh, SwingLow, Turned;
    forall m
      ensures (SwingHigh(Turned(b), k, m) <==> SwingLow(b, k, m)) && (SwingLow(Turned(b), k, m) <==> SwingHigh(b, k, m))
    {
      SwingTurned(b, k, m);
    }
  }

  lemma ExtremeTurned(b: seq<Bar>, lo: int, hi: int, x: real)
    ensures LeastLow(Turned(b), lo, hi, -x) <==> GreatestHigh(b, lo, hi, x)
  {
    hide Turned;
    var t := Turned(b);
    TurnedBar(b, 0);
    forall j
      ensures |t| == |b| && (0 <= j < |b| ==> t[j] == Bar(-b[j].l, -b[j].h, -b[j].c))
    {
      TurnedBar(b, j);
    }
    if LeastLow(t, lo, hi, -x) {
      var m :| lo <= m < hi && t[m].l == -x;
      assert b[m].h == x;
      forall n | lo <= n < hi ensures b[n].h <= x { assert -x <= t[n].l; }
    }
    if GreatestHigh(b, lo, hi, x) {
      var m :| lo <= m < hi && b[m].h == x;
      assert t[m].l == -x;
      forall n | lo <= n < hi ensures -x <= t[n].l { assert b[n].h <= x; }
    }
  }

  lemma DetectTurned(p: Params, kind: Kind, b: seq<Bar>, a: real, hit: Hit)
    requires a > 0.0 && forall i :: 0 <= i < |b| ==> b[i].l <= b[i].h
    ensures Detect(p, kind, b, a) == Ok(Some(hit)) <==> Detect(p, Opposite(kind), Turned(b), a) == Ok(Some(TurnedHit(hit)))
    ensures Detect(p, kind, b, a) == Ok(None) <==> Detect(p, Opposite(kind), Turned(b), a) == Ok(None)
    ensures forall i :: 0 <= i < |Turned(b)| ==> Turned(b)[i].l <= Turned(b)[i].h
  {
    hide Detect;
    MirrorImage(p, kind, b, a);
    ErrorsMean(p, kind, b, a);
    var r := Detect(p, kind, b, a).value;
    if r.Some? { TurnedHitIsOne(r.value, hit); }
  }

  lemma TurnedHitIsOne(x: Hit, y: Hit)
    ensures TurnedHit(x) == TurnedHit(y) <==> x == y
  {
    TurnedHitTwice(x);
    TurnedHitTwice(y);
  }

  lemma TurnedHitTwice(x: Hit)
    ensures TurnedHit(TurnedHit(x)) == x
  {}

  lemma BottomTurned(p: Params, b: seq<Bar>, a: real, i1: int, i2: int, j: int)
    ensures Bottom(p, b, a, i1, i2, j) <==> Top(p, Turned(b), a, i1, i2, j)
  {
    hide NextHighs, NextLows, Turned;
    var t := Turned(b);
    TurnedBar(b, 0);
    NextTurned(b, p.lookback, i1, i2);
    forall m
      ensures |t| == |b| && (0 <= m < |b| ==> t[m] == Bar(-b[m].l, -b[m].h, -b[m].c))
    {
      TurnedBar(b, m);
    }
    if Bottom(p, b, a, i1, i2, j) {
      forall m | i1 < m < i2 ensures t[j].c < t[m].l - p.eps { assert b[j].c > b[m].h + p.eps; }
    }
    if Top(p, t, a, i1, i2, j) {
      forall m | i1 < m < i2 ensures b[j].c > b[m].h + p.eps { assert t[j].c < t[m].l - p.eps; }
    }
  }

  lemma FirstBottomTurned(p: Params, b: seq<Bar>, a: real, i1: int, i2: int, j: int, pivot: real)
    ensures FirstBottom(p, b, a, i1, i2, j, pivot) <==> FirstTop(p, Turned(b), a, i1, i2, j, -pivot)
  {
    hide Top, Bottom, LeastLow, GreatestHigh, Turned;
    ExtremeTurned(b, i1 + 1, i2, pivot);
    forall h1, h2, c
      ensures Bottom(p, b, a, h1, h2, c) <==> Top(p, Turned(b), a, h1, h2, c)
    {
      BottomTurned(p, b, a, h1, h2, c);
    }
  }

  lemma ReportsBottomTurned(p: Params, b: seq<Bar>, a: real, hit: Hit)
    requires a > 0.0
    ensures ReportsBottom(p, b, a, hit) <==> ReportsTop(p, Turned(b), a, TurnedHit(hit))
  {
    hide NextHighs, NextLows, LeastLow, GreatestHigh, Turned, Part;
    var t, turned := Turned(b), TurnedHit(hit);
    if ReportsBottom(p, b, a, hit) {
      var i1, i2, j, pivot :| FirstBottom(p, b, a, i1, i2, j, pivot)
        && hit == Hit(DOUBLE_BOTTOM, 1, j, b[i2].l, DOWN, Twins(b[i1].l, b[i2].l, pivot), Part(Distance(pivot, b[i2].l), 2.0 * a));
      FirstBottomTurned(p, b, a, i1, i2, j, pivot);
      TurnedBar(b, i1);
      TurnedBar(b, i2);
      assert FirstTop(p, t, a, i1, i2, j, -pivot);
    }
    if ReportsTop(p, t, a, turned) {
      var i1, i2, j, x :| FirstTop(p, t, a, i1, i2, j, x)
        && turned == Hit(DOUBLE_TOP, -1, j, t[i2].h, UP, Twins(t[i1].h, t[i2].h, x), Part(Distance(t[i2].h, x), 2.0 * a));
      FirstBottomTurned(p, b, a, i1, i2, j, -x);
      TurnedBar(b, i1);
      TurnedBar(b, i2);
      TurnedHitTwice(hit);
      assert FirstBottom(p, b, a, i1, i2, j, -x);
    }
  }

  lemma DoubleBottomMeans(p: Params, b: seq<Bar>, a: real, hit: Hit)
    requires a > 0.0 && forall i :: 0 <= i < |b| ==> b[i].l <= b[i].h
    ensures Detect(p, DOUBLE_BOTTOM, b, a) == Ok(Some(hit)) <==> ReportsBottom(p, b, a, hit)
    ensures Detect(p, DOUBLE_BOTTOM, b, a) == Ok(None) <==> forall i1, i2, j :: !Bottom(p, b, a, i1, i2, j)
  {
    hide Detect, Turned, Top, Bottom, ReportsTop, ReportsBottom, TurnedHit;
    DetectTurned(p, DOUBLE_BOTTOM, b, a, hit);
    DoubleTopMeans(p, Turned(b), a, TurnedHit(hit));
    ReportsBottomTurned(p, b, a, hit);
    forall i1, i2, j
      ensures Bottom(p, b, a, i1, i2, j) <==> Top(p, Turned(b), a, i1, i2, j)
    {
      BottomTurned(p, b, a, i1, i2, j);
    }
  }

  // ---- head and shoulders -------------------------------------------------

  /** The lows of the swing lows among the bars from `lo` up to but not including `hi`, added up. */
  ghost function LowSum(b: seq<Bar>, k: nat, lo: int, hi: int): (x: real)
    decreases hi - lo
  {
    if hi <= lo then 0.0 else LowSum(b, k, lo, hi - 1) + (if SwingLow(b, k, hi - 1) then b[hi - 1].l else 0.0)
  }

  ghost function HighSum(b: seq<Bar>, k: nat, lo: int, hi: int): (x: real)
    decreases hi - lo
  {
    if hi <= lo then 0.0 else HighSum(b, k, lo, hi - 1) + (if SwingHigh(b, k, hi - 1) then b[hi - 1].h else 0.0)
  }

  ghost predicate SideLows(b: seq<Bar>, i1: int, i2: int, i3: int, l: real, r: real) {
    LeastLow(b, i1, i2 + 1, l) && LeastLow(b, i2, i3 + 1, r)
  }

  ghost predicate SideHighs(b: seq<Bar>, i1: int, i2: int, i3: int, l: real, r: real) {
    GreatestHigh(b, i1, i2 + 1, l) && GreatestHigh(b, i2, i3 + 1, r)
  }

  /** Half the sum of the swing lows between the shoulders, however many there are; with
      none, half the sum of the least lows on the two sides of the head. */
  ghost predicate Under(b: seq<Bar>, k: nat, i1: int, i2: int, i3: int, x: real) {
    if exists m :: i1 < m < i3 && SwingLow(b, k, m) then x == LowSum(b, k, i1 + 1, i3) / 2.0
    else exists l, r :: SideLows(b, i1, i2, i3, l, r) && x == (l + r) / 2.0
  }

  ghost predicate Over(b: seq<Bar>, k: nat, i1: int, i2: int, i3: int, x: real) {
    if exists m :: i1 < m < i3 && SwingHigh(b, k, m) then x == HighSum(b, k, i1 + 1, i3) / 2.0
    else exists l, r :: SideHighs(b, i1, i2, i3, l, r) && x == (l + r) / 2.0
  }

  /** Three neighbouring swing highs, the middle one above the others, which are alike up to
      the tolerance, and a later close below the neckline by more than eps. */
  ghost predicate Head(p: Params, b: seq<Bar>, a: real, i1: int, i2: int, i3: int, neck: real, j: int) {
    && NextHighs(b, p.lookback, i1, i2) && NextHighs(b, p.lookback, i2, i3) && 0 <= i1 < i2 < i3 < j < |b|
    && b[i2].h > b[i1].h && b[i2].h > b[i3].h && Distance(b[i1].h, b[i3].h) <= p.thetaShoulder * a
    && Under(b, p.lookback, i1, i2, i3, neck) && b[j].c < neck - p.eps
  }

  ghost predicate InverseHead(p: Params, b: seq<Bar>, a: real, i1: int, i2: int, i3: int, neck: real, j: int) {
    && NextLows(b, p.lookback, i1, i2) && NextLows(b, p.lookback, i2, i3) && 0 <= i1 < i2 < i3 < j < |b|
    && b[i2].l < b[i1].l && b[i2].l < b[i3].l && Distance(b[i1].l, b[i3].l) <= p.thetaShoulder * a
    && Over(b, p.lookback, i1, i2, i3, neck) && b[j].c > neck + p.eps
  }

  ghost predicate FirstHead(p: Params, b: seq<Bar>, a: real, i1: int, i2: int, i3: int, neck: real, j: int) {
    && Head(p, b, a, i1, i2, i3, neck, j)
    && forall h1, h2, h3, y, c :: Head(p, b, a, h1, h2, h3, y, c) ==> i3 < h3 || (i3 == h3 && j <= c)
  }

  ghost predicate FirstInverseHead(p: Params, b: seq<Bar>, a: real, i1: int, i2: int, i3: int, neck: real, j: int) {
    && InverseHead(p, b, a, i1, i2, i3, neck, j)
    && forall h1, h2, h3, y, c :: InverseHead(p, b, a, h1, h2, h3, y, c) ==> i3 < h3 || (i3 == h3 && j <= c)
  }

  ghost predicate ReportsHead(p: Params, b: seq<Bar>, a: real, hit: Hit)
    requires a > 0.0
  {
    exists i1, i2, i3, neck, j :: FirstHead(p, b, a, i1, i2, i3, neck, j)
      && hit == Hit(HEAD_AND_SHOULDERS, -1, j, b[i3].h, UP, Shoulders(b[i1].h, b[i2].h, b[i3].h, neck), Part(Distance(b[i2].h, neck), 3.0 * a))
  }

  ghost predicate ReportsInverseHead(p: Params, b: seq<Bar>, a: real, hit: Hit)
    requires a > 0.0
  {
    exists i1, i2, i3, neck, j :: FirstInverseHead(p, b, a, i1, i2, i3, neck, j)
      && hit == Hit(INVERSE_HEAD_AND_SHOULDERS, 1, j, b[i3].l, DOWN, Shoulders(b[i1].l, b[i2].l, b[i3].l, neck),
                    Part(Distance(b[i2].l, neck), 3.0 * a))
  }

  lemma {:induction false} NoLowSum(b: seq<Bar>, k: nat, lo: int, hi: int)
    requires hi <= k
    ensures LowSum(b, k, lo, hi) == 0.0
    decreases hi - lo
  {
    if lo < hi { NoLowSum(b, k, lo, hi - 1); }
  }

  lemma WithinNothing(lo: int, hi: int)
    ensures Within([], lo, hi) == [] && Sum([]) == 0.0
  {}

  lemma WithinStep(ps: Points, q: (int, real), lo: int, hi: int)
    ensures var more, less := Within(ps + [q], lo, hi), Within(ps, lo, hi);
            if lo < q.0 < hi then Sum(more) == Sum(less) + q.1 && more != [] else more == less
  {
    hide Sum;
    assert (ps + [q])[..|ps|] == ps;
    var less := Within(ps, lo, hi);
    assert less + [] == less;
    SumStep(less, q.1);
  }

  lemma SumStep(s: seq<real>, x: real)
    ensures Sum(s + [x]) == Sum(s) + x
  {
    assert (s + [x])[..|s|] == s;
  }

  lemma {:induction false} WithinMeans(b: seq<Bar>, k: nat, m: int, lo: int, hi: int)
    requires (m <= |b| - k || m <= k)
    ensures var ls, end := Within(LowsTo(b, k, m), lo, hi), if m < hi then m else hi;
            && Sum(ls) == LowSum(b, k, lo + 1, end)
            && (ls == [] <==> forall i :: lo < i < end ==> !SwingLow(b, k, i))
    decreases m - k
  {
    hide IsLow, SwingLow, IsHigh, SwingHigh, Within, Sum;
    if m <= k { WithinNothing(lo, hi); }
    if m > k {
      WithinMeans(b, k, m - 1, lo, hi);
      SwingMeans(b, k, m - 1);
      var ps := LowsTo(b, k, m - 1);
      assert ps + [] == ps;
      WithinStep(ps, (m - 1, b[m - 1].l), lo, hi);
    } else {
      NoLowSum(b, k, lo + 1, if m < hi then m else hi);
      forall i | lo < i < (if m < hi then m else hi) ensures !SwingLow(b, k, i) { InRange(b, k, i); }
    }
  }

  lemma NecklineMeans(b: seq<Bar>, k: nat, i1: int, i2: int, i3: int)
    requires 0 <= i1 < i2 < i3 < |b| - k
    ensures Under(b, k, i1, i2, i3, NecklineOf(false, b, SwingsOf(b, k), i1, i2, i3))
  {
    hide SwingLow, LeastLow, LowsTo, HighsTo, Within, Lows;
    LowsLength(b);
    WithinMeans(b, k, |b| - k, i1, i3);
    LeastLowIsMin(b, i1, i2 + 1);
    LeastLowIsMin(b, i2, i3 + 1);
    var x, y := MinOf(Lows(b)[i1..i2 + 1]), MinOf(Lows(b)[i2..i3 + 1]);
    assert SideLows(b, i1, i2, i3, x, y);
    PairSum(x, y);
  }

  lemma PairSum(x: real, y: real)
    ensures Sum([x, y]) == x + y
  {
    assert [x, y][..1] == [x];
    assert Sum([x]) == x by { assert [x][..0] == []; }
  }

  lemma UnderIsOne(b: seq<Bar>, k: nat, i1: int, i2: int, i3: int, x: real, y: real)
    requires Under(b, k, i1, i2, i3, x) && Under(b, k, i1, i2, i3, y)
    ensures x == y
  {
    hide SwingLow, LeastLow;
    if !(exists m :: i1 < m < i3 && SwingLow(b, k, m)) {
      var l, r :| SideLows(b, i1, i2, i3, l, r) && x == (l + r) / 2.0;
      var s, t :| SideLows(b, i1, i2, i3, s, t) && y == (s + t) / 2.0;
      LeastLowIsOne(b, i1, i2 + 1, l, s);
      LeastLowIsOne(b, i2, i3 + 1, r, t);
    }
  }

  /** One neighbouring triple: the report is its first close below. */
  ghost predicate HeadOfTriple(p: Params, b: seq<Bar>, a: real, i1: int, i2: int, i3: int, neck: real, hit: Hit)
    requires a > 0.0
  {
    && Head(p, b, a, i1, i2, i3, neck, hit.index) && (forall y, j :: Head(p, b, a, i1, i2, i3, y, j) ==> hit.index <= j)
    && hit == Hit(HEAD_AND_SHOULDERS, -1, hit.index, b[i3].h, UP, Shoulders(b[i1].h, b[i2].h, b[i3].h, neck),
                  Part(Distance(b[i2].h, neck), 3.0 * a))
  }

  lemma HeadHitMeans(p: Params, a: real, b: seq<Bar>, i1: int, i2: int, i3: int, neck: real)
    requires a > 0.0 && NextHighs(b, p.lookback, i1, i2) && NextHighs(b, p.lookback, i2, i3) && 0 <= i1 < i2 < i3 < |b|
    requires Under(b, p.lookback, i1, i2, i3, neck)
    ensures var r := HeadHit(p, a, false, b[i1].h, b[i2].h, b[i3].h, neck, Closes(b), i3 + 1);
            && (r.None? ==> forall y, j :: !Head(p, b, a, i1, i2, i3, y, j))
            && (r.Some? ==> r.value.anchors.Shoulders? && HeadOfTriple(p, b, a, i1, i2, i3, r.value.anchors.neckline, r.value))
  {
    hide NextHighs, Under, Strength;
    FirstBelowMeans(Closes(b), i3 + 1, neck - p.eps);
    PartIs(Abs(b[i2].h - neck), 3.0, a);
    assert Abs(b[i2].h - neck) == Distance(b[i2].h, neck) && Abs(b[i1].h - b[i3].h) == Distance(b[i1].h, b[i3].h);
    forall j | 0 <= j < |b|
      ensures Closes(b)[j] == b[j].c
    {}
    forall y | Under(b, p.lookback, i1, i2, i3, y)
      ensures y == neck
    {
      UnderIsOne(b, p.lookback, i1, i2, i3, y, neck);
    }
  }

  lemma TripleMeans(p: Params, a: real, b: seq<Bar>, n: nat)
    requires a > 0.0 && PlacedSwings(SwingsOf(b, p.lookback), |b|) && n + 2 < |SwingsOf(b, p.lookback).highs|
    requires ListsHighs(SwingsOf(b, p.lookback).highs, b, p.lookback, |b| - p.lookback)
    ensures var s := SwingsOf(b, p.lookback);
            var r, i1, i2, i3 := ShouldersAt(p, a, b, s, false, n), s.highs[n].0, s.highs[n + 1].0, s.highs[n + 2].0;
            && (r.None? ==> forall y, j :: !Head(p, b, a, i1, i2, i3, y, j))
            && (r.Some? ==> r.value.anchors.Shoulders? && HeadOfTriple(p, b, a, i1, i2, i3, r.value.anchors.neckline, r.value))
  {
    hide NextHighs, SwingHigh, Under, At, NecklineOf, SwingsOf, HeadHit, Head, HeadOfTriple, Closes;
    var s := SwingsOf(b, p.lookback);
    var i1, i2, i3 := s.highs[n].0, s.highs[n + 1].0, s.highs[n + 2].0;
    NeighboursAreNext(s.highs, b, p.lookback, n + 1);
    NeighboursAreNext(s.highs, b, p.lookback, n + 2);
    InOrder(s.highs, n, n + 1);
    InOrder(s.highs, n + 1, n + 2);
    NecklineMeans(b, p.lookback, i1, i2, i3);
    HeadHitMeans(p, a, b, i1, i2, i3, NecklineOf(false, b, s, i1, i2, i3));
  }

  lemma {:induction false} FirstTripleMeans(p: Params, a: real, b: seq<Bar>, s: Swings, i: nat)
    requires PlacedSwings(s, |b|) && a > 0.0
    ensures var r := ShouldersFrom(p, a, b, s, false, i);
            && (r.None? ==> forall n :: i <= n && n + 2 < |s.highs| ==> ShouldersAt(p, a, b, s, false, n).None?)
            && (r.Some? ==> exists n :: i <= n && n + 2 < |s.highs| && ShouldersAt(p, a, b, s, false, n) == r
                                        && forall m :: i <= m < n ==> ShouldersAt(p, a, b, s, false, m).None?)
    decreases |s.highs| - i
  {
    hide ShouldersAt, PlacedSwings;
    if i + 2 < |s.highs| { FirstTripleMeans(p, a, b, s, i + 1); }
  }

  lemma TripleOfNext(ps: Points, b: seq<Bar>, k: nat, i1: int, i2: int, i3: int) returns (n: int)
    requires ListsHighs(ps, b, k, |b| - k) && NextHighs(b, k, i1, i2) && NextHighs(b, k, i2, i3)
    ensures 0 <= n && n + 2 < |ps| && ps[n].0 == i1 && ps[n + 1].0 == i2 && ps[n + 2].0 == i3
  {
    hide SwingHigh, At, Ascends;
    var m := NextAreNeighbours(ps, b, k, i1, i2);
    var o := NextAreNeighbours(ps, b, k, i2, i3);
    InOrder(ps, m, o - 1);
    InOrder(ps, o - 1, m);
    n := m - 1;
  }

  lemma HeadFound(p: Params, b: seq<Bar>, a: real)
    requires a > 0.0 && WellFormed(b)
    ensures var r := Detect(p, HEAD_AND_SHOULDERS, b, a);
            && (r == Ok(None) ==> forall i1, i2, i3, y, j :: !Head(p, b, a, i1, i2, i3, y, j))
            && (r.Ok? && r.value.Some? ==> ReportsHead(p, b, a, r.value.value))
  {
    hide ShouldersAt, ShouldersFrom, HeadOfTriple, NextHighs, WellFormed, ListsHighs, HighsTo, LowsTo, Under;
    var s := SwingsOf(b, p.lookback);
    OwnSwingsArePlaced(b, p.lookback);
    HighsAreListed(b, p.lookback, |b| - p.lookback);
    FirstTripleMeans(p, a, b, s, 0);
    var r := ShouldersFrom(p, a, b, s, false, 0);
    if r.None? {
      forall i1, i2, i3, y, j
        ensures !Head(p, b, a, i1, i2, i3, y, j)
      {
        if Head(p, b, a, i1, i2, i3, y, j) {
          var n := TripleOfNext(s.highs, b, p.lookback, i1, i2, i3);
          TripleMeans(p, a, b, n);
        }
      }
    } else {
      var n :| 0 <= n && n + 2 < |s.highs| && ShouldersAt(p, a, b, s, false, n) == r
        && forall m :: 0 <= m < n ==> ShouldersAt(p, a, b, s, false, m).None?;
      TripleMeans(p, a, b, n);
      FirstOfTriples(p, a, b, n, r.value);
    }
  }

  lemma FirstOfTriples(p: Params, a: real, b: seq<Bar>, n: nat, hit: Hit)
    requires a > 0.0 && PlacedSwings(SwingsOf(b, p.lookback), |b|) && n + 2 < |SwingsOf(b, p.lookback).highs|
    requires ListsHighs(SwingsOf(b, p.lookback).highs, b, p.lookback, |b| - p.lookback)
    requires forall m :: 0 <= m < n ==> ShouldersAt(p, a, b, SwingsOf(b, p.lookback), false, m).None?
    requires var s := SwingsOf(b, p.lookback);
             hit.anchors.Shoulders? && HeadOfTriple(p, b, a, s.highs[n].0, s.highs[n + 1].0, s.highs[n + 2].0, hit.anchors.neckline, hit)
    ensures ReportsHead(p, b, a, hit)
  {
    hide ShouldersAt, NextHighs, Under, SwingHigh, At, SwingsOf, Ascends;
    var s := SwingsOf(b, p.lookback);
    var i1, i2, i3, j := s.highs[n].0, s.highs[n + 1].0, s.highs[n + 2].0, hit.index;
    forall h1, h2, h3, y, c | Head(p, b, a, h1, h2, h3, y, c)
      ensures i3 < h3 || (i3 == h3 && j <= c)
    {
      var m := TripleOfNext(s.highs, b, p.lookback, h1, h2, h3);
      InOrder(s.highs, n + 2, m + 2);
      if m < n { TripleMeans(p, a, b, m); }
    }
    assert Head(p, b, a, i1, i2, i3, hit.anchors.neckline, j);
    assert FirstHead(p, b, a, i1, i2, i3, hit.anchors.neckline, j);
  }

  lemma OneHeadReport(p: Params, b: seq<Bar>, a: real, hit: Hit, other: Hit)
    requires a > 0.0 && ReportsHead(p, b, a, hit) && ReportsHead(p, b, a, other)
    ensures hit == other && exists i1, i2, i3, y, j :: Head(p, b, a, i1, i2, i3, y, j)
  {
    hide NextHighs, Under, Part, Distance;
    var i1, i2, i3, x, j :| FirstHead(p, b, a, i1, i2, i3, x, j)
      && hit == Hit(HEAD_AND_SHOULDERS, -1, j, b[i3].h, UP, Shoulders(b[i1].h, b[i2].h, b[i3].h, x), Part(Distance(b[i2].h, x), 3.0 * a));
    var h1, h2, h3, y, c :| FirstHead(p, b, a, h1, h2, h3, y, c)
      && other == Hit(HEAD_AND_SHOULDERS, -1, c, b[h3].h, UP, Shoulders(b[h1].h, b[h2].h, b[h3].h, y), Part(Distance(b[h2].h, y), 3.0 * a));
    PreviousIsOne(b, p.lookback, i2, h2, i3);
    PreviousIsOne(b, p.lookback, i1, h1, i2);
    UnderIsOne(b, p.lookback, i1, i2, i3, x, y);
  }

  /** The head and shoulders, sound and complete. */
  lemma ShouldersMean(p: Params, b: seq<Bar>, a: real, hit: Hit)
    requires a > 0.0 && forall i :: 0 <= i < |b| ==> b[i].l <= b[i].h
    ensures Detect(p, HEAD_AND_SHOULDERS, b, a) == Ok(Some(hit)) <==> ReportsHead(p, b, a, hit)
    ensures Detect(p, HEAD_AND_SHOULDERS, b, a) == Ok(None) <==> forall i1, i2, i3, y, j :: !Head(p, b, a, i1, i2, i3, y, j)
  {
    hide Detect, ReportsHead, Head;
    ErrorsMean(p, HEAD_AND_SHOULDERS, b, a);
    HeadFound(p, b, a);
    var r := Detect(p, HEAD_AND_SHOULDERS, b, a).value;
    if r.Some? { OneHeadReport(p, b, a, r.value, r.value); }
    if ReportsHead(p, b, a, hit) {
      OneHeadReport(p, b, a, hit, hit);
      OneHeadReport(p, b, a, hit, r.value);
    }
  }

  lemma {:induction false} SumTurned(b: seq<Bar>, k: nat, lo: int, hi: int)
    requires hi <= |b|
    ensures LowSum(Turned(b), k, lo, hi) == -HighSum(b, k, lo, hi)
    decreases hi - lo
  {
    hide SwingHigh, SwingLow, Turned;
    if lo < hi {
      SumTurned(b, k, lo, hi - 1);
      SwingTurned(b, k, hi - 1);
      InRange(b, k, hi - 1);
      TurnedBar(b, hi - 1);
    }
  }

  lemma OverTurned(b: seq<Bar>, k: nat, i1: int, i2: int, i3: int, x: real)
    requires i3 <= |b|
    ensures Over(b, k, i1, i2, i3, x) <==> Under(Turned(b), k, i1, i2, i3, -x)
  {
    hide SwingHigh, SwingLow, Turned, LeastLow, GreatestHigh;
    var t := Turned(b);
    SumTurned(b, k, i1 + 1, i3);
    forall m
      ensures SwingLow(t, k, m) <==> SwingHigh(b, k, m)
    {
      SwingTurned(b, k, m);
    }
    if l, r :| SideHighs(b, i1, i2, i3, l, r) && x == (l + r) / 2.0 {
      ExtremeTurned(b, i1, i2 + 1, l);
      ExtremeTurned(b, i2, i3 + 1, r);
      assert SideLows(t, i1, i2, i3, -l, -r) && -x == (-l + -r) / 2.0;
    }
    if l, r :| SideLows(t, i1, i2, i3, l, r) && -x == (l + r) / 2.0 {
      ExtremeTurned(b, i1, i2 + 1, -l);
      ExtremeTurned(b, i2, i3 + 1, -r);
      assert SideHighs(b, i1, i2, i3, -l, -r) && x == (-l + -r) / 2.0;
    }
  }

  lemma HeadTurned(p: Params, b: seq<Bar>, a: real, i1: int, i2: int, i3: int, neck: real, j: int)
    ensures InverseHead(p, b, a, i1, i2, i3, neck, j) <==> Head(p, Turned(b), a, i1, i2, i3, -neck, j)
  {
    hide NextHighs, NextLows, Turned, Over, Under;
    NextTurned(b, p.lookback, i1, i2);
    NextTurned(b, p.lookback, i2, i3);
    if i3 <= |b| { OverTurned(b, p.lookback, i1, i2, i3, neck); }
    TurnedBar(b, i1);
    TurnedBar(b, i2);
    TurnedBar(b, i3);
    TurnedBar(b, j);
  }

  lemma FirstHeadTurned(p: Params, b: seq<Bar>, a: real, i1: int, i2: int, i3: int, neck: real, j: int)
    ensures FirstInverseHead(p, b, a, i1, i2, i3, neck, j) <==> FirstHead(p, Turned(b), a, i1, i2, i3, -neck, j)
  {
    hide Head, InverseHead, Turned;
    var t := Turned(b);
    HeadTurned(p, b, a, i1, i2, i3, neck, j);
    if FirstInverseHead(p, b, a, i1, i2, i3, neck, j) {
      forall h1, h2, h3, y, c | Head(p, t, a, h1, h2, h3, y, c)
        ensures i3 < h3 || (i3 == h3 && j <= c)
      {
        HeadTurned(p, b, a, h1, h2, h3, -y, c);
        assert InverseHead(p, b, a, h1, h2, h3, -y, c);
      }
    }
    if FirstHead(p, t, a, i1, i2, i3, -neck, j) {
      forall h1, h2, h3, y, c | InverseHead(p, b, a, h1, h2, h3, y, c)
        ensures i3 < h3 || (i3 == h3 && j <= c)
      {
        HeadTurned(p, b, a, h1, h2, h3, y, c);
        assert Head(p, t, a, h1, h2, h3, -y, c);
      }
    }
  }

  lemma ReportsHeadTurned(p: Params, b: seq<Bar>, a: real, hit: Hit)
    requires a > 0.0
    ensures ReportsInverseHead(p, b, a, hit) <==> ReportsHead(p, Turned(b), a, TurnedHit(hit))
  {
    hide NextHighs, NextLows, Under, Over, Turned, Part;
    var t, turned := Turned(b), TurnedHit(hit);
    if ReportsInverseHead(p, b, a, hit) {
      var i1, i2, i3, neck, j :| FirstInverseHead(p, b, a, i1, i2, i3, neck, j)
        && hit == Hit(INVERSE_HEAD_AND_SHOULDERS, 1, j, b[i3].l, DOWN, Shoulders(b[i1].l, b[i2].l, b[i3].l, neck),
                      Part(Distance(b[i2].l, neck), 3.0 * a));
      FirstHeadTurned(p, b, a, i1, i2, i3, neck, j);
      TurnedBar(b, i1);
      TurnedBar(b, i2);
      TurnedBar(b, i3);
      assert FirstHead(p, t, a, i1, i2, i3, -neck, j);
    }
    if ReportsHead(p, t, a, turned) {
      var i1, i2, i3, x, j :| FirstHead(p, t, a, i1, i2, i3, x, j)
        && turned == Hit(HEAD_AND_SHOULDERS, -1, j, t[i3].h, UP, Shoulders(t[i1].h, t[i2].h, t[i3].h, x), Part(Distance(t[i2].h, x), 3.0 * a));
      FirstHeadTurned(p, b, a, i1, i2, i3, -x, j);
      TurnedBar(b, i1);
      TurnedBar(b, i2);
      TurnedBar(b, i3);
      TurnedHitTwice(hit);
      assert FirstInverseHead(p, b, a, i1, i2, i3, -x, j);
    }
  }

  lemma InverseShouldersMean(p: Params, b: seq<Bar>, a: real, hit: Hit)
    requires a > 0.0 && forall i :: 0 <= i < |b| ==> b[i].l <= b[i].h
    ensures Detect(p, INVERSE_HEAD_AND_SHOULDERS, b, a) == Ok(Some(hit)) <==> ReportsInverseHead(p, b, a, hit)
    ensures Detect(p, INVERSE_HEAD_AND_SHOULDERS, b, a) == Ok(None) <==> forall i1, i2, i3, y, j :: !InverseHead(p, b, a, i1, i2, i3, y, j)
  {
    hide Detect, Turned, Head, InverseHead, ReportsHead, ReportsInverseHead, TurnedHit;
    var t := Turned(b);
    DetectTurned(p, INVERSE_HEAD_AND_SHOULDERS, b, a, hit);
    ShouldersMean(p, t, a, TurnedHit(hit));
    ReportsHeadTurned(p, b, a, hit);
    if i1, i2, i3, y, j :| InverseHead(p, b, a, i1, i2, i3, y, j) {
      HeadTurned(p, b, a, i1, i2, i3, y, j);
    }
    if i1, i2, i3, y, j :| Head(p, t, a, i1, i2, i3, y, j) {
      HeadTurned(p, b, a, i1, i2, i3, -y, j);
    }
  }

  // ---- triangles ----------------------------------------------------------

  ghost predicate TwoHighs(b: seq<Bar>, k: nat) { exists i1, i2 :: i1 < i2 && SwingHigh(b, k, i1) && SwingHigh(b, k, i2) }

  ghost predicate TwoLows(b: seq<Bar>, k: nat) { exists i1, i2 :: i1 < i2 && SwingLow(b, k, i1) && SwingLow(b, k, i2) }

  /** The swing highs that touch a level. */
  ghost function TouchingHighs(b: seq<Bar>, k: nat, level: real, reach: real): (s: set<int>) {
    set i | 0 <= i < |b| && SwingHigh(b, k, i) && Distance(b[i].h, level) <= reach
  }

  ghost function TouchingLows(b: seq<Bar>, k: nat, level: real, reach: real): (s: set<int>) {
    set i | 0 <= i < |b| && SwingLow(b, k, i) && Distance(b[i].l, level) <= reach
  }

  /** The level of the highest swing high. */
  ghost predicate Ceiling(b: seq<Bar>, k: nat, flat: real) {
    && (exists i :: SwingHigh(b, k, i) && b[i].h == flat)
    && forall i :: SwingHigh(b, k, i) ==> b[i].h <= flat
  }

  ghost predicate Floor(b: seq<Bar>, k: nat, flat: real) {
    && (exists i :: SwingLow(b, k, i) && b[i].l == flat)
    && forall i :: SwingLow(b, k, i) ==> flat <= b[i].l
  }

  ghost predicate LowsRise(b: seq<Bar>, k: nat) {
    forall i1, i2 :: i1 < i2 && SwingLow(b, k, i1) && SwingLow(b, k, i2) ==> b[i1].l < b[i2].l
  }

  ghost predicate HighsFall(b: seq<Bar>, k: nat) {
    forall i1, i2 :: i1 < i2 && SwingHigh(b, k, i1) && SwingHigh(b, k, i2) ==> b[i1].h > b[i2].h
  }

  ghost predicate LastLow(b: seq<Bar>, k: nat, i: int) { SwingLow(b, k, i) && forall m :: i < m ==> !SwingLow(b, k, m) }

  ghost predicate LastHigh(b: seq<Bar>, k: nat, i: int) { SwingHigh(b, k, i) && forall m :: i < m ==> !SwingHigh(b, k, m) }

  /** A level enough swing highs touch and none passes, over swing lows that rise, and a
      close above it by more than eps. */
  ghost predicate Ascending(p: Params, b: seq<Bar>, a: real, flat: real, last: int, j: int) {
    && TwoHighs(b, p.lookback) && TwoLows(b, p.lookback)
    && Ceiling(b, p.lookback, flat) && |TouchingHighs(b, p.lookback, flat, 0.15 * a + p.eps)| >= p.minTouches
    && LowsRise(b, p.lookback) && LastLow(b, p.lookback, last)
    && 1 <= j < |b| && b[j].c > flat + p.eps
  }

  ghost predicate Descending(p: Params, b: seq<Bar>, a: real, flat: real, last: int, j: int) {
    && TwoHighs(b, p.lookback) && TwoLows(b, p.lookback)
    && Floor(b, p.lookback, flat) && |TouchingLows(b, p.lookback, flat, 0.15 * a + p.eps)| >= p.minTouches
    && HighsFall(b, p.lookback) && LastHigh(b, p.lookback, last)
    && 1 <= j < |b| && b[j].c < flat - p.eps
  }

  ghost predicate FirstAscending(p: Params, b: seq<Bar>, a: real, flat: real, last: int, j: int) {
    Ascending(p, b, a, flat, last, j) && 0 <= last < |b| && forall f, m, c :: Ascending(p, b, a, f, m, c) ==> j <= c
  }

  ghost predicate FirstDescending(p: Params, b: seq<Bar>, a: real, flat: real, last: int, j: int) {
    Descending(p, b, a, flat, last, j) && 0 <= last < |b| && forall f, m, c :: Descending(p, b, a, f, m, c) ==> j <= c
  }

  ghost predicate ReportsAscending(p: Params, b: seq<Bar>, a: real, hit: Hit)
    requires a > 0.0
  {
    exists flat, last, j :: FirstAscending(p, b, a, flat, last, j)
      && hit == Hit(TRIANGLE_ASCENDING, 1, j, b[last].l, DOWN, Boundary(flat, b[last].l), Part(Distance(flat, b[last].l), 2.0 * a))
  }

  ghost predicate ReportsDescending(p: Params, b: seq<Bar>, a: real, hit: Hit)
    requires a > 0.0
  {
    exists flat, last, j :: FirstDescending(p, b, a, flat, last, j)
      && hit == Hit(TRIANGLE_DESCENDING, -1, j, b[last].h, UP, Boundary(flat, b[last].h), Part(Distance(flat, b[last].h), 2.0 * a))
  }

  ghost function TouchSet(b: seq<Bar>, k: nat, m: int, level: real, reach: real): (s: set<int>) {
    set i | 0 <= i < m && i < |b| && SwingHigh(b, k, i) && Distance(b[i].h, level) <= reach
  }

  lemma {:induction false} TouchesMean(b: seq<Bar>, k: nat, m: int, level: real, a: real, eps: real)
    requires m <= |b| - k || m <= k
    ensures |TouchSet(b, k, m, level, 0.15 * a + eps)| == Touches(Values(HighsTo(b, k, m)), level, a, eps)
    decreases m - k
  {
    hide IsHigh, SwingHigh, IsLow, SwingLow, Touches, TouchSet;
    var reach := 0.15 * a + eps;
    if m > k {
      TouchesMean(b, k, m - 1, level, a, eps);
      SwingMeans(b, k, m - 1);
      var ps, h := HighsTo(b, k, m - 1), b[m - 1].h;
      assert ps + [] == ps;
      TouchesStep(ps, (m - 1, h), level, a, eps);
      TouchSetStep(b, k, m - 1, level, reach);
    } else {
      TouchNothing(b, k, m, level, reach, a, eps);
    }
  }

  lemma TouchNothing(b: seq<Bar>, k: nat, m: int, level: real, reach: real, a: real, eps: real)
    requires m <= k
    ensures TouchSet(b, k, m, level, reach) == {} && Touches(Values([]), level, a, eps) == 0
  {
    hide SwingHigh;
    forall i ensures i !in TouchSet(b, k, m, level, reach) { InRange(b, k, i); }
  }

  lemma TouchesStep(ps: Points, q: (int, real), level: real, a: real, eps: real)
    ensures Touches(Values(ps + [q]), level, a, eps)
            == Touches(Values(ps), level, a, eps) + if Distance(q.1, level) <= 0.15 * a + eps then 1 else 0
  {
    assert Values(ps + [q]) == Values(ps) + [q.1];
    assert (Values(ps) + [q.1])[..|ps|] == Values(ps);
    assert Distance(q.1, level) == Abs(q.1 - level);
  }

  lemma TouchSetStep(b: seq<Bar>, k: nat, m: int, level: real, reach: real)
    requires 0 <= m < |b|
    ensures |TouchSet(b, k, m + 1, level, reach)|
            == |TouchSet(b, k, m, level, reach)| + if SwingHigh(b, k, m) && Distance(b[m].h, level) <= reach then 1 else 0
  {
    hide SwingHigh, Distance;
    var less := TouchSet(b, k, m, level, reach);
    assert TouchSet(b, k, m + 1, level, reach)
        == if SwingHigh(b, k, m) && Distance(b[m].h, level) <= reach then less + {m} else less;
  }

  lemma TouchingIsTouches(b: seq<Bar>, k: nat, level: real, a: real, eps: real)
    ensures |TouchingHighs(b, k, level, 0.15 * a + eps)| == Touches(Values(SwingsOf(b, k).highs), level, a, eps)
  {
    hide SwingHigh, Touches, HighsTo, LowsTo;
    TouchesMean(b, k, |b| - k, level, a, eps);
    forall i
      ensures SwingHigh(b, k, i) ==> i < |b| - k
    {
      InRange(b, k, i);
    }
    assert TouchingHighs(b, k, level, 0.15 * a + eps) == TouchSet(b, k, |b| - k, level, 0.15 * a + eps);
  }

  lemma {:induction false} RisingPairs(vals: seq<real>, n: int, o: int)
    requires Rising(vals) && 0 <= n < o < |vals|
    ensures vals[n] < vals[o]
    decreases o
  {
    if n < o - 1 { RisingPairs(vals, n, o - 1); }
  }

  lemma LowsRiseMeans(b: seq<Bar>, k: nat, ps: Points)
    requires ListsLows(ps, b, k, |b| - k)
    ensures Rising(Values(ps)) <==> LowsRise(b, k)
  {
    hide SwingLow, Ascends;
    SwingsOnBars(b, k);
    if Rising(Values(ps)) {
      forall i1, i2 | i1 < i2 && SwingLow(b, k, i1) && SwingLow(b, k, i2)
        ensures b[i1].l < b[i2].l
      {
        InRange(b, k, i1);
        InRange(b, k, i2);
        var n :| 0 <= n < |ps| && ps[n].0 == i1;
        var o :| 0 <= o < |ps| && ps[o].0 == i2;
        InOrder(ps, n, o);
        RisingPairs(Values(ps), n, o);
      }
    }
    if LowsRise(b, k) {
      forall n | 0 < n < |ps|
        ensures Values(ps)[n - 1] < Values(ps)[n]
      {
        InOrder(ps, n - 1, n);
        assert SwingLow(b, k, ps[n - 1].0) && SwingLow(b, k, ps[n].0);
      }
    }
  }

  lemma CeilingMeans(b: seq<Bar>, k: nat, ps: Points)
    requires ListsHighs(ps, b, k, |b| - k) && ps != []
    ensures Ceiling(b, k, MaxOf(Values(ps)))
  {
    hide SwingHigh, Ascends;
    SwingsOnBars(b, k);
    var vals := Values(ps);
    forall i | SwingHigh(b, k, i)
      ensures b[i].h <= MaxOf(vals)
    {
      InRange(b, k, i);
      var n :| 0 <= n < |ps| && ps[n].0 == i;
      ExtremesLaw(vals, n);
      assert vals[n] == b[i].h;
    }
    ExtremesLaw(vals, 0);
    var n :| 0 <= n < |vals| && vals[n] == MaxOf(vals);
    assert SwingHigh(b, k, ps[n].0) && b[ps[n].0].h == MaxOf(vals);
  }

  lemma CeilingIsOne(b: seq<Bar>, k: nat, x: real, y: real)
    requires Ceiling(b, k, x) && Ceiling(b, k, y)
    ensures x == y
  {
    hide SwingHigh;
    SwingsOnBars(b, k);
    var i :| SwingHigh(b, k, i) && b[i].h == x;
    var j :| SwingHigh(b, k, j) && b[j].h == y;
  }

  lemma LastLowIsOne(b: seq<Bar>, k: nat, i: int, j: int)
    requires LastLow(b, k, i) && LastLow(b, k, j)
    ensures i == j
  {
    hide SwingLow;
  }

  lemma LastLowMeans(b: seq<Bar>, k: nat, ps: Points)
    requires ListsLows(ps, b, k, |b| - k) && ps != []
    ensures LastLow(b, k, ps[|ps| - 1].0)
  {
    hide SwingLow, Ascends;
    var last := ps[|ps| - 1].0;
    forall m | last < m
      ensures !SwingLow(b, k, m)
    {
      if SwingLow(b, k, m) {
        InRange(b, k, m);
        var n :| 0 <= n < |ps| && ps[n].0 == m;
        InOrder(ps, |ps| - 1, n);
      }
    }
  }

  lemma LastHighMeans(b: seq<Bar>, k: nat, ps: Points)
    requires ListsHighs(ps, b, k, |b| - k) && ps != []
    ensures LastHigh(b, k, ps[|ps| - 1].0)
  {
    hide SwingHigh, Ascends;
    var last := ps[|ps| - 1].0;
    forall m | last < m
      ensures !SwingHigh(b, k, m)
    {
      if SwingHigh(b, k, m) {
        InRange(b, k, m);
        var n :| 0 <= n < |ps| && ps[n].0 == m;
        InOrder(ps, |ps| - 1, n);
      }
    }
  }

  lemma TwoAreTwo(b: seq<Bar>, k: nat, s: Swings)
    requires ListsHighs(s.highs, b, k, |b| - k) && ListsLows(s.lows, b, k, |b| - k)
    ensures TwoHighs(b, k) <==> |s.highs| >= 2
    ensures TwoLows(b, k) <==> |s.lows| >= 2
  {
    hide SwingHigh, SwingLow, Ascends;
    if |s.highs| >= 2 { InOrder(s.highs, 0, 1); assert SwingHigh(b, k, s.highs[0].0) && SwingHigh(b, k, s.highs[1].0); }
    if |s.lows| >= 2 { InOrder(s.lows, 0, 1); assert SwingLow(b, k, s.lows[0].0) && SwingLow(b, k, s.lows[1].0); }
    if i1, i2 :| i1 < i2 && SwingHigh(b, k, i1) && SwingHigh(b, k, i2) {
      InRange(b, k, i1);
      InRange(b, k, i2);
      assert At(s.highs, i1) && At(s.highs, i2);
    }
    if i1, i2 :| i1 < i2 && SwingLow(b, k, i1) && SwingLow(b, k, i2) {
      InRange(b, k, i1);
      InRange(b, k, i2);
      assert At(s.lows, i1) && At(s.lows, i2);
    }
  }

  lemma AscendingHitMeans(p: Params, b: seq<Bar>, a: real, s: Swings)
    requires a > 0.0 && s == SwingsOf(b, p.lookback)
    requires ListsHighs(s.highs, b, p.lookback, |b| - p.lookback) && ListsLows(s.lows, b, p.lookback, |b| - p.lookback)
    ensures var r := AscendingHit(p, a, Values(s.highs), Values(s.lows), Closes(b));
            && (r.None? ==> forall flat, last, j :: !Ascending(p, b, a, flat, last, j))
            && (r.Some? ==> ReportsAscending(p, b, a, r.value))
  {
    hide TwoHighs, TwoLows, Ceiling, LowsRise, LastLow, ListsHighs, ListsLows, Strength, Part, TouchingHighs, SwingsOf, Touches, Rising;
    var k := p.lookback;
    TwoAreTwo(b, k, s);
    if |s.highs| >= 2 && |s.lows| >= 2 {
      var flat, last := MaxOf(Values(s.highs)), s.lows[|s.lows| - 1].0;
      CeilingMeans(b, k, s.highs);
      LastLowMeans(b, k, s.lows);
      LastInRange(b, k, s.lows);
      LowsRiseMeans(b, k, s.lows);
      TouchingIsTouches(b, k, flat, a, p.eps);
      FirstAboveMeans(Closes(b), 1, flat + p.eps);
      PartIs(Abs(flat - b[last].l), 2.0, a);
      assert Distance(flat, b[last].l) == Abs(flat - b[last].l);
      forall f, m, c | Ascending(p, b, a, f, m, c)
        ensures f == flat && m == last && Closes(b)[c] == b[c].c
      {
        CeilingIsOne(b, k, f, flat);
        LastLowIsOne(b, k, m, last);
      }
      var r := AscendingHit(p, a, Values(s.highs), Values(s.lows), Closes(b));
      if r.Some? { assert FirstAscending(p, b, a, flat, last, r.value.index); }
    }
  }

  lemma LastInRange(b: seq<Bar>, k: nat, ps: Points)
    requires ListsLows(ps, b, k, |b| - k) && ps != []
    ensures 0 <= ps[|ps| - 1].0 < |b| && ps[|ps| - 1].1 == b[ps[|ps| - 1].0].l
  {
    hide SwingLow, Ascends;
    InRange(b, k, ps[|ps| - 1].0);
  }

  lemma OneAscendingReport(p: Params, b: seq<Bar>, a: real, hit: Hit, other: Hit)
    requires a > 0.0 && ReportsAscending(p, b, a, hit) && ReportsAscending(p, b, a, other)
    ensures hit == other && exists flat, last, j :: Ascending(p, b, a, flat, last, j)
  {
    hide TwoHighs, TwoLows, Ceiling, LowsRise, LastLow, Part, Distance, TouchingHighs;
    var x, m, j :| FirstAscending(p, b, a, x, m, j)
      && hit == Hit(TRIANGLE_ASCENDING, 1, j, b[m].l, DOWN, Boundary(x, b[m].l), Part(Distance(x, b[m].l), 2.0 * a));
    var y, n, c :| FirstAscending(p, b, a, y, n, c)
      && other == Hit(TRIANGLE_ASCENDING, 1, c, b[n].l, DOWN, Boundary(y, b[n].l), Part(Distance(y, b[n].l), 2.0 * a));
    CeilingIsOne(b, p.lookback, x, y);
    LastLowIsOne(b, p.lookback, m, n);
  }

  /** The ascending triangle, sound and complete. */
  lemma AscendingMeans(p: Params, b: seq<Bar>, a: real, hit: Hit)
    requires a > 0.0 && forall i :: 0 <= i < |b| ==> b[i].l <= b[i].h
    ensures Detect(p, TRIANGLE_ASCENDING, b, a) == Ok(Some(hit)) <==> ReportsAscending(p, b, a, hit)
    ensures Detect(p, TRIANGLE_ASCENDING, b, a) == Ok(None) <==> forall flat, last, j :: !Ascending(p, b, a, flat, last, j)
  {
    hide AscendingHit, ReportsAscending, Ascending, HighsTo, LowsTo, ListsHighs, ListsLows;
    var s := SwingsOf(b, p.lookback);
    OwnSwingsArePlaced(b, p.lookback);
    HighsAreListed(b, p.lookback, |b| - p.lookback);
    LowsAreListed(b, p.lookback, |b| - p.lookback);
    AscendingHitMeans(p, b, a, s);
    var r := AscendingHit(p, a, Values(s.highs), Values(s.lows), Closes(b));
    assert Detect(p, TRIANGLE_ASCENDING, b, a) == Ok(r);
    if r.Some? { OneAscendingReport(p, b, a, r.value, r.value); }
    if ReportsAscending(p, b, a, hit) {
      OneAscendingReport(p, b, a, hit, hit);
      OneAscendingReport(p, b, a, hit, r.value);
    }
  }

  lemma DescendingTurned(p: Params, b: seq<Bar>, a: real, flat: real, last: int, j: int)
    ensures Descending(p, b, a, flat, last, j) <==> Ascending(p, Turned(b), a, -flat, last, j)
  {
    hide SwingHigh, SwingLow, Turned, TwoHighs, TwoLows, Ceiling, Floor, LowsRise, HighsFall, TouchingHighs, TouchingLows, LastLow, LastHigh;
    TriangleTurned(b, p.lookback, flat, 0.15 * a + p.eps, last);
    TurnedBar(b, j);
  }

  lemma TriangleTurned(b: seq<Bar>, k: nat, flat: real, reach: real, last: int)
    ensures var t := Turned(b);
            && (TwoHighs(t, k) <==> TwoLows(b, k)) && (TwoLows(t, k) <==> TwoHighs(b, k))
            && (Ceiling(t, k, -flat) <==> Floor(b, k, flat)) && (LowsRise(t, k) <==> HighsFall(b, k))
            && TouchingHighs(t, k, -flat, reach) == TouchingLows(b, k, flat, reach)
            && (LastLow(t, k, last) <==> LastHigh(b, k, last))
  {
    hide SwingHigh, SwingLow, Turned;
    var t := Turned(b);
    TurnedBar(b, 0);
    forall i
      ensures (SwingHigh(t, k, i) <==> SwingLow(b, k, i)) && (SwingLow(t, k, i) <==> SwingHigh(b, k, i))
      ensures SwingHigh(t, k, i) ==> 0 <= i < |b| && t[i].h == -b[i].l
      ensures SwingLow(t, k, i) ==> 0 <= i < |b| && t[i].l == -b[i].h
    {
      SwingTurned(b, k, i);
      InRange(t, k, i);
      TurnedBar(b, i);
    }
    if Ceiling(t, k, -flat) {
      var i :| SwingHigh(t, k, i) && t[i].h == -flat;
      assert SwingLow(b, k, i) && b[i].l == flat;
    }
    if Floor(b, k, flat) {
      var i :| SwingLow(b, k, i) && b[i].l == flat;
      assert SwingHigh(t, k, i) && t[i].h == -flat;
    }
    TwosTurned(b, k);
    forall i
      ensures i in TouchingHighs(t, k, -flat, reach) <==> i in TouchingLows(b, k, flat, reach)
    {}
  }

  lemma TwosTurned(b: seq<Bar>, k: nat)
    ensures (TwoHighs(Turned(b), k) <==> TwoLows(b, k)) && (TwoLows(Turned(b), k) <==> TwoHighs(b, k))
  {
    hide SwingHigh, SwingLow, Turned;
    forall i
      ensures (SwingHigh(Turned(b), k, i) <==> SwingLow(b, k, i)) && (SwingLow(Turned(b), k, i) <==> SwingHigh(b, k, i))
    {
      SwingTurned(b, k, i);
    }
  }

  lemma FirstDescendingTurned(p: Params, b: seq<Bar>, a: real, flat: real, last: int, j: int)
    ensures FirstDescending(p, b, a, flat, last, j) <==> FirstAscending(p, Turned(b), a, -flat, last, j)
  {
    hide Ascending, Descending, Turned;
    var t := Turned(b);
    TurnedBar(b, 0);
    DescendingTurned(p, b, a, flat, last, j);
    if FirstDescending(p, b, a, flat, last, j) {
      forall f, m, c | Ascending(p, t, a, f, m, c)
        ensures j <= c
      {
        DescendingTurned(p, b, a, -f, m, c);
        assert Descending(p, b, a, -f, m, c);
      }
    }
    if FirstAscending(p, t, a, -flat, last, j) {
      forall f, m, c | Descending(p, b, a, f, m, c)
        ensures j <= c
      {
        DescendingTurned(p, b, a, f, m, c);
        assert Ascending(p, t, a, -f, m, c);
      }
    }
  }

  lemma ReportsDescendingTurned(p: Params, b: seq<Bar>, a: real, hit: Hit)
    requires a > 0.0
    ensures ReportsDescending(p, b, a, hit) <==> ReportsAscending(p, Turned(b), a, TurnedHit(hit))
  {
    hide Turned, Part, TwoHighs, TwoLows, Ceiling, Floor, LowsRise, HighsFall, TouchingHighs, TouchingLows, LastLow, LastHigh;
    var t, turned := Turned(b), TurnedHit(hit);
    if ReportsDescending(p, b, a, hit) {
      var flat, last, j :| FirstDescending(p, b, a, flat, last, j)
        && hit == Hit(TRIANGLE_DESCENDING, -1, j, b[last].h, UP, Boundary(flat, b[last].h), Part(Distance(flat, b[last].h), 2.0 * a));
      FirstDescendingTurned(p, b, a, flat, last, j);
      TurnedBar(b, last);
      assert FirstAscending(p, t, a, -flat, last, j);
    }
    if ReportsAscending(p, t, a, turned) {
      var x, last, j :| FirstAscending(p, t, a, x, last, j)
        && turned == Hit(TRIANGLE_ASCENDING, 1, j, t[last].l, DOWN, Boundary(x, t[last].l), Part(Distance(x, t[last].l), 2.0 * a));
      FirstDescendingTurned(p, b, a, -x, last, j);
      TurnedBar(b, last);
      TurnedHitTwice(hit);
      assert FirstDescending(p, b, a, -x, last, j);
    }
  }

  lemma DescendingMeans(p: Params, b: seq<Bar>, a: real, hit: Hit)
    requires a > 0.0 && forall i :: 0 <= i < |b| ==> b[i].l <= b[i].h
    ensures Detect(p, TRIANGLE_DESCENDING, b, a) == Ok(Some(hit)) <==> ReportsDescending(p, b, a, hit)
    ensures Detect(p, TRIANGLE_DESCENDING, b, a) == Ok(None) <==> forall flat, last, j :: !Descending(p, b, a, flat, last, j)
  {
    hide Detect, Turned, Ascending, Descending, ReportsAscending, ReportsDescending, TurnedHit;
    var t := Turned(b);
    DetectTurned(p, TRIANGLE_DESCENDING, b, a, hit);
    AscendingMeans(p, t, a, TurnedHit(hit));
    ReportsDescendingTurned(p, b, a, hit);
    if flat, last, j :| Descending(p, b, a, flat, last, j) {
      DescendingTurned(p, b, a, flat, last, j);
    }
    if flat, last, j :| Ascending(p, t, a, flat, last, j) {
      DescendingTurned(p, b, a, -flat, last, j);
    }
  }

  // ---- wedges -------------------------------------------------------------

  /** The last two swing highs and the last two swing lows. */
  ghost predicate LastFour(b: seq<Bar>, k: nat, h2: int, h1: int, l2: int, l1: int) {
    && NextHighs(b, k, h2, h1) && LastHigh(b, k, h1) && NextLows(b, k, l2, l1) && LastLow(b, k, l1)
    && 0 <= h2 < h1 < |b| && 0 <= l2 < l1 < |b|
  }

  /** Higher highs and higher lows that close in, and a close below the last low by more
      than eps. */
  ghost predicate Rise(p: Params, b: seq<Bar>, h2: int, h1: int, l2: int, l1: int, j: int) {
    && LastFour(b, p.lookback, h2, h1, l2, l1)
    && b[h1].h > b[h2].h && b[l1].l > b[l2].l && b[h1].h - b[l1].l < b[h2].h - b[l2].l
    && 0 <= j < |b| && b[j].c < b[l1].l - p.eps
  }

  ghost predicate Fall(p: Params, b: seq<Bar>, h2: int, h1: int, l2: int, l1: int, j: int) {
    && LastFour(b, p.lookback, h2, h1, l2, l1)
    && b[h1].h < b[h2].h && b[l1].l < b[l2].l && b[h1].h - b[l1].l < b[h2].h - b[l2].l
    && 0 <= j < |b| && b[j].c > b[h1].h + p.eps
  }

  /** The last such close of the whole history. */
  ghost predicate LastRise(p: Params, b: seq<Bar>, h2: int, h1: int, l2: int, l1: int, j: int) {
    Rise(p, b, h2, h1, l2, l1, j) && forall g2, g1, m2, m1, c :: Rise(p, b, g2, g1, m2, m1, c) ==> c <= j
  }

  ghost predicate LastFall(p: Params, b: seq<Bar>, h2: int, h1: int, l2: int, l1: int, j: int) {
    Fall(p, b, h2, h1, l2, l1, j) && forall g2, g1, m2, m1, c :: Fall(p, b, g2, g1, m2, m1, c) ==> c <= j
  }

  ghost predicate ReportsRise(p: Params, b: seq<Bar>, a: real, hit: Hit)
    requires a > 0.0
  {
    exists h2, h1, l2, l1, j :: LastRise(p, b, h2, h1, l2, l1, j)
      && hit == Hit(RISING_WEDGE, -1, j, b[h1].h, UP, Ends(b[h1].h, b[l1].l), Part(b[h1].h - b[l1].l, 2.0 * a))
  }

  ghost predicate ReportsFall(p: Params, b: seq<Bar>, a: real, hit: Hit)
    requires a > 0.0
  {
    exists h2, h1, l2, l1, j :: LastFall(p, b, h2, h1, l2, l1, j)
      && hit == Hit(FALLING_WEDGE, 1, j, b[l1].l, DOWN, Ends(b[h1].h, b[l1].l), Part(b[h1].h - b[l1].l, 2.0 * a))
  }

  lemma NeighbouringLows(ps: Points, b: seq<Bar>, k: nat, n: int)
    requires ListsLows(ps, b, k, |b| - k) && 1 <= n < |ps|
    ensures NextLows(b, k, ps[n - 1].0, ps[n].0)
  {
    hide SwingLow, Ascends;
    InOrder(ps, n - 1, n);
    forall m | ps[n - 1].0 < m < ps[n].0
      ensures !SwingLow(b, k, m)
    {
      if SwingLow(b, k, m) {
        InRange(b, k, m);
        var o :| 0 <= o < |ps| && ps[o].0 == m;
        InOrder(ps, n - 1, o);
        InOrder(ps, o, n);
      }
    }
  }

  lemma LastFourMeans(b: seq<Bar>, k: nat, s: Swings)
    requires ListsHighs(s.highs, b, k, |b| - k) && ListsLows(s.lows, b, k, |b| - k) && |s.highs| >= 2 && |s.lows| >= 2
    ensures var n, m := |s.highs|, |s.lows|;
            && LastFour(b, k, s.highs[n - 2].0, s.highs[n - 1].0, s.lows[m - 2].0, s.lows[m - 1].0)
            && s.highs[n - 2].1 == b[s.highs[n - 2].0].h && s.highs[n - 1].1 == b[s.highs[n - 1].0].h
            && s.lows[m - 2].1 == b[s.lows[m - 2].0].l && s.lows[m - 1].1 == b[s.lows[m - 1].0].l
  {
    hide SwingHigh, SwingLow, Ascends, LastHigh, LastLow, NextHighs, NextLows, At;
    var n, m := |s.highs|, |s.lows|;
    NeighboursAreNext(s.highs, b, k, n - 1);
    NeighbouringLows(s.lows, b, k, m - 1);
    LastHighMeans(b, k, s.highs);
    LastLowMeans(b, k, s.lows);
    InOrder(s.highs, n - 2, n - 1);
    InOrder(s.lows, m - 2, m - 1);
    InRange(b, k, s.highs[n - 2].0);
    InRange(b, k, s.highs[n - 1].0);
    InRange(b, k, s.lows[m - 2].0);
    InRange(b, k, s.lows[m - 1].0);
  }

  lemma LastFourAreOne(b: seq<Bar>, k: nat, h2: int, h1: int, l2: int, l1: int, g2: int, g1: int, m2: int, m1: int)
    requires LastFour(b, k, h2, h1, l2, l1) && LastFour(b, k, g2, g1, m2, m1)
    ensures h2 == g2 && h1 == g1 && l2 == m2 && l1 == m1
    ensures TwoHighs(b, k) && TwoLows(b, k)
  {
    hide SwingHigh, SwingLow;
    LastLowIsOne(b, k, l1, m1);
    assert h1 == g1;
    PreviousIsOne(b, k, h2, g2, h1);
    PreviousLowIsOne(b, k, l2, m2, l1);
  }

  lemma PreviousLowIsOne(b: seq<Bar>, k: nat, i: int, j: int, next: int)
    requires NextLows(b, k, i, next) && NextLows(b, k, j, next)
    ensures i == j
  {
    hide SwingLow;
  }

  lemma RisingWedgeMeans(p: Params, b: seq<Bar>, a: real, s: Swings)
    requires a > 0.0
    requires ListsHighs(s.highs, b, p.lookback, |b| - p.lookback) && ListsLows(s.lows, b, p.lookback, |b| - p.lookback)
    ensures var r := RisingWedge(p, a, b, s);
            && (r.None? ==> forall h2, h1, l2, l1, j :: !Rise(p, b, h2, h1, l2, l1, j))
            && (r.Some? ==> ReportsRise(p, b, a, r.value))
  {
    hide LastFour, ListsHighs, ListsLows, Strength, Part, TwoHighs, TwoLows;
    var k := p.lookback;
    TwoAreTwo(b, k, s);
    if |s.highs| >= 2 && |s.lows| >= 2 {
      LastFourMeans(b, k, s);
      var n, m := |s.highs|, |s.lows|;
      var h2, h1, l2, l1 := s.highs[n - 2].0, s.highs[n - 1].0, s.lows[m - 2].0, s.lows[m - 1].0;
      FourInRange(b, k, h2, h1, l2, l1);
      LastBelowMeans(Closes(b), |b|, b[l1].l - p.eps);
      PartIs(b[h1].h - b[l1].l, 2.0, a);
      forall g2, g1, m2, m1, c | Rise(p, b, g2, g1, m2, m1, c)
        ensures h2 == g2 && h1 == g1 && l2 == m2 && l1 == m1 && Closes(b)[c] == b[c].c
      {
        LastFourAreOne(b, k, h2, h1, l2, l1, g2, g1, m2, m1);
      }
      var r := RisingWedge(p, a, b, s);
      if r.Some? { assert LastRise(p, b, h2, h1, l2, l1, r.value.index); }
    } else {
      forall g2, g1, m2, m1, c
        ensures !Rise(p, b, g2, g1, m2, m1, c)
      {
        if Rise(p, b, g2, g1, m2, m1, c) { LastFourAreOne(b, k, g2, g1, m2, m1, g2, g1, m2, m1); }
      }
    }
  }

  lemma FourInRange(b: seq<Bar>, k: nat, h2: int, h1: int, l2: int, l1: int)
    requires LastFour(b, k, h2, h1, l2, l1)
    ensures 0 <= h2 < h1 < |b| && 0 <= l2 < l1 < |b|
  {
    hide NextHighs, NextLows, LastHigh, LastLow;
  }

  lemma OneRiseReport(p: Params, b: seq<Bar>, a: real, hit: Hit, other: Hit)
    requires a > 0.0 && ReportsRise(p, b, a, hit) && ReportsRise(p, b, a, other)
    ensures hit == other && exists h2, h1, l2, l1, j :: Rise(p, b, h2, h1, l2, l1, j)
  {
    hide NextHighs, NextLows, LastHigh, LastLow, Part;
    var h2, h1, l2, l1, j :| LastRise(p, b, h2, h1, l2, l1, j)
      && hit == Hit(RISING_WEDGE, -1, j, b[h1].h, UP, Ends(b[h1].h, b[l1].l), Part(b[h1].h - b[l1].l, 2.0 * a));
    var g2, g1, m2, m1, c :| LastRise(p, b, g2, g1, m2, m1, c)
      && other == Hit(RISING_WEDGE, -1, c, b[g1].h, UP, Ends(b[g1].h, b[m1].l), Part(b[g1].h - b[m1].l, 2.0 * a));
    LastFourAreOne(b, p.lookback, h2, h1, l2, l1, g2, g1, m2, m1);
  }

  /** The rising wedge, sound and complete. */
  lemma RiseMeans(p: Params, b: seq<Bar>, a: real, hit: Hit)
    requires a > 0.0 && forall i :: 0 <= i < |b| ==> b[i].l <= b[i].h
    ensures Detect(p, RISING_WEDGE, b, a) == Ok(Some(hit)) <==> ReportsRise(p, b, a, hit)
    ensures Detect(p, RISING_WEDGE, b, a) == Ok(None) <==> forall h2, h1, l2, l1, j :: !Rise(p, b, h2, h1, l2, l1, j)
  {
    hide RisingWedge, ReportsRise, Rise, HighsTo, LowsTo, ListsHighs, ListsLows;
    var s := SwingsOf(b, p.lookback);
    OwnSwingsArePlaced(b, p.lookback);
    HighsAreListed(b, p.lookback, |b| - p.lookback);
    LowsAreListed(b, p.lookback, |b| - p.lookback);
    RisingWedgeMeans(p, b, a, s);
    var r := RisingWedge(p, a, b, s);
    assert Detect(p, RISING_WEDGE, b, a) == Ok(r);
    if r.Some? { OneRiseReport(p, b, a, r.value, r.value); }
    if ReportsRise(p, b, a, hit) {
      OneRiseReport(p, b, a, hit, hit);
      OneRiseReport(p, b, a, hit, r.value);
    }
  }

  lemma LastTurned(b: seq<Bar>, k: nat, i: int)
    ensures LastLow(Turned(b), k, i) <==> LastHigh(b, k, i)
    ensures LastHigh(Turned(b), k, i) <==> LastLow(b, k, i)
  {
    hide SwingHigh, SwingLow, Turned;
    forall m
      ensures (SwingHigh(Turned(b), k, m) <==> SwingLow(b, k, m)) && (SwingLow(Turned(b), k, m) <==> SwingHigh(b, k, m))
    {
      SwingTurned(b, k, m);
    }
  }

  lemma FallTurned(p: Params, b: seq<Bar>, h2: int, h1: int, l2: int, l1: int, j: int)
    ensures Fall(p, b, h2, h1, l2, l1, j) <==> Rise(p, Turned(b), l2, l1, h2, h1, j)
  {
    hide NextHighs, NextLows, LastHigh, LastLow, Turned;
    NextTurned(b, p.lookback, h2, h1);
    NextTurned(b, p.lookback, l2, l1);
    LastTurned(b, p.lookback, h1);
    LastTurned(b, p.lookback, l1);
    TurnedBar(b, h2);
    TurnedBar(b, h1);
    TurnedBar(b, l2);
    TurnedBar(b, l1);
    TurnedBar(b, j);
  }

  lemma LastFallTurned(p: Params, b: seq<Bar>, h2: int, h1: int, l2: int, l1: int, j: int)
    ensures LastFall(p, b, h2, h1, l2, l1, j) <==> LastRise(p, Turned(b), l2, l1, h2, h1, j)
  {
    hide Rise, Fall, Turned;
    forall g2, g1, m2, m1, c
      ensures Fall(p, b, g2, g1, m2, m1, c) <==> Rise(p, Turned(b), m2, m1, g2, g1, c)
    {
      FallTurned(p, b, g2, g1, m2, m1, c);
    }
  }

  lemma ReportsFallTurned(p: Params, b: seq<Bar>, a: real, hit: Hit)
    requires a > 0.0
    ensures ReportsFall(p, b, a, hit) <==> ReportsRise(p, Turned(b), a, TurnedHit(hit))
  {
    hide NextHighs, NextLows, LastHigh, LastLow, Turned, Part;
    var t, turned := Turned(b), TurnedHit(hit);
    if ReportsFall(p, b, a, hit) {
      var h2, h1, l2, l1, j :| LastFall(p, b, h2, h1, l2, l1, j)
        && hit == Hit(FALLING_WEDGE, 1, j, b[l1].l, DOWN, Ends(b[h1].h, b[l1].l), Part(b[h1].h - b[l1].l, 2.0 * a));
      LastFallTurned(p, b, h2, h1, l2, l1, j);
      TurnedBar(b, h1);
      TurnedBar(b, l1);
      assert LastRise(p, t, l2, l1, h2, h1, j);
    }
    if ReportsRise(p, t, a, turned) {
      var h2, h1, l2, l1, j :| LastRise(p, t, h2, h1, l2, l1, j)
        && turned == Hit(RISING_WEDGE, -1, j, t[h1].h, UP, Ends(t[h1].h, t[l1].l), Part(t[h1].h - t[l1].l, 2.0 * a));
      LastFallTurned(p, b, l2, l1, h2, h1, j);
      TurnedBar(b, h1);
      TurnedBar(b, l1);
      TurnedHitTwice(hit);
      assert LastFall(p, b, l2, l1, h2, h1, j);
    }
  }

  lemma FallMeans(p: Params, b: seq<Bar>, a: real, hit: Hit)
    requires a > 0.0 && forall i :: 0 <= i < |b| ==> b[i].l <= b[i].h
    ensures Detect(p, FALLING_WEDGE, b, a) == Ok(Some(hit)) <==> ReportsFall(p, b, a, hit)
    ensures Detect(p, FALLING_WEDGE, b, a) == Ok(None) <==> forall h2, h1, l2, l1, j :: !Fall(p, b, h2, h1, l2, l1, j)
  {
    hide Detect, Turned, Rise, Fall, ReportsRise, ReportsFall, TurnedHit;
    var t := Turned(b);
    DetectTurned(p, FALLING_WEDGE, b, a, hit);
    RiseMeans(p, t, a, TurnedHit(hit));
    ReportsFallTurned(p, b, a, hit);
    if h2, h1, l2, l1, j :| Fall(p, b, h2, h1, l2, l1, j) {
      FallTurned(p, b, h2, h1, l2, l1, j);
    }
    if h2, h1, l2, l1, j :| Rise(p, t, h2, h1, l2, l1, j) {
      FallTurned(p, b, l2, l1, h2, h1, j);
    }
  }
}
