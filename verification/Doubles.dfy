/** Binary floating point as far as timestamps need it: the numbers a 53-bit significand
    can hold, and rounding to the nearest of them. */
module Doubles {
  const TWO22 := 4194304
  const TWO52 := 4503599627370496
  const TWO53 := 9007199254740992

  function Pow2(m: nat): (p: nat)
    ensures p >= 1
  {
    if m == 0 then 1 else 2 * Pow2(m - 1)
  }

  function Abs(x: real): (y: real) { if x < 0.0 then -x else x }

  function Times(x: real, k: nat): (y: real) { x * k as real }

  predicate IsDyadic(x: real, k: nat, m: nat) { k <= TWO53 && Times(x, Pow2(m)) == k as real }

  /** A non-negative number with a significand of 53 bits, the exponent unbounded below. */
  ghost predicate Double(x: real) { exists k: nat, m: nat :: IsDyadic(x, k, m) }

  /** Rounding to nearest, whichever way ties go. */
  ghost predicate NearestDouble(x: real, p: real) { Double(p) && forall y :: Double(y) ==> Abs(p - x) <= Abs(y - x) }

  lemma {:induction false} Pow2Grows(m: nat, n: nat)
    requires m <= n
    ensures Pow2(m) <= Pow2(n)
    decreases n - m
  {
    if m < n { Pow2Grows(m, n - 1); }
  }

  lemma {:induction false} Pow2Sum(m: nat, n: nat)
    ensures Pow2(m + n) == Pow2(m) * Pow2(n)
    decreases n
  {
    if n > 0 {
      Pow2Sum(m, n - 1);
      assert m + n - 1 == m + (n - 1);
    }
  }

  lemma TimesTimes(x: real, a: nat, b: nat)
    ensures Times(x, a * b) == Times(x, a) * b as real
  {
    assert (a * b) as real == a as real * b as real;
  }

  predicate IsSteps(x: real, m: nat, j: nat) { Times(x, Pow2(m)) == j as real }

  /** Above the power of two at which 53 bits reach down to 1/2^m, a double is a whole
      number of those steps. */
  lemma DoubleIsSteps(x: real, m: nat) returns (j: nat)
    requires Double(x) && Times(x, Pow2(m + 1)) > TWO53 as real
    ensures IsSteps(x, m, j)
  {
    var k: nat, n: nat :| IsDyadic(x, k, n);
    NotFiner(x, k, n, m);
    Coarser(x, k, n, m);
    j := k * Pow2(m - n);
  }

  lemma NotFiner(x: real, k: nat, n: nat, m: nat)
    requires IsDyadic(x, k, n)
    ensures n > m ==> Times(x, Pow2(m + 1)) <= TWO53 as real
  {
    if n > m {
      var d := n - m - 1;
      Pow2Sum(m + 1, d);
      assert m + 1 + d == n;
      hide Pow2, Times;
      TimesTimes(x, Pow2(m + 1), Pow2(d));
      Shrinks(Times(x, Pow2(m + 1)), Pow2(d));
    }
  }

  lemma Coarser(x: real, k: nat, n: nat, m: nat)
    requires IsDyadic(x, k, n) && n <= m
    ensures IsSteps(x, m, k * Pow2(m - n))
  {
    Pow2Sum(n, m - n);
    assert n + (m - n) == m;
    hide Pow2, Times;
    TimesTimes(x, Pow2(n), Pow2(m - n));
    CastProduct(k, Pow2(m - n));
  }

  lemma CastProduct(a: nat, b: nat)
    ensures (a * b) as real == a as real * b as real
  {}

  lemma Shrinks(y: real, p: nat)
    requires y * p as real <= TWO53 as real && p >= 1
    ensures y <= TWO53 as real
  {
    if y > 0.0 { assert y * p as real >= y; }
  }

  lemma WholeIsDouble(n: nat)
    requires n <= TWO53
    ensures Double(n as real)
  {
    assert IsDyadic(n as real, n, 0);
  }

  /** A double is its own nearest. */
  lemma NearestToItself(x: real, p: real)
    requires Double(x) && NearestDouble(x, p)
    ensures p == x
  {
    assert Abs(p - x) <= Abs(x - x);
  }

  lemma Powers()
    ensures Pow2(12) == 4096 && Pow2(13) == 8192 && Pow2(22) == TWO22
  {
    assert Pow2(4) == 16;
    Pow2Sum(4, 4);
    Pow2Sum(8, 4);
    Pow2Sum(12, 4);
    Pow2Sum(16, 4);
    assert Pow2(20) == 1048576;
  }

  lemma MorePowers()
    ensures Pow2(43) == 8796093022208 && Pow2(44) == 2 * Pow2(43) && Pow2(52) == TWO52 && Pow2(53) == TWO53
  {
    Powers();
    Pow2Sum(22, 20);
    Pow2Sum(20, 0);
    assert Pow2(20) * 4 == Pow2(22);
    assert Pow2(42) == TWO22 * 1048576;
    assert Pow2(44) == 4 * Pow2(42);
    Pow2Sum(44, 8);
    assert Pow2(8) == 256 by { assert Pow2(4) == 16; Pow2Sum(4, 4); }
  }

  /** The nearest double to a number of seconds between 2^30 and 2^31 is off by half a
      step of 1/2^22 at most. */
  lemma NearestIsNear(x: real, r: real)
    requires 1.0 <= x <= 2147483648.0 && NearestDouble(x, r)
    ensures Abs(r - x) <= 1.0 / 8388608.0
  {
    Powers();
    var scaled := x * TWO22 as real;
    var j := (scaled + 0.5).Floor;
    var y := j as real / TWO22 as real;
    assert scaled <= TWO53 as real;
    assert -0.5 <= j as real - scaled <= 0.5;
    StepIsDouble(j, y);
    assert Abs(y - x) <= 1.0 / 8388608.0 by { Scaled(y, x, j, scaled); }
    assert Abs(r - x) <= Abs(y - x);
  }

  lemma StepIsDouble(j: int, y: real)
    requires 0 <= j <= TWO53 && y == j as real / TWO22 as real
    ensures Double(y)
  {
    Powers();
    assert IsDyadic(y, j, 22);
  }

  lemma Scaled(y: real, x: real, j: int, scaled: real)
    requires y == j as real / TWO22 as real && scaled == x * TWO22 as real && -0.5 <= j as real - scaled <= 0.5
    ensures Abs(y - x) <= 1.0 / 8388608.0
  {}

  // ---- milliseconds from seconds and back ---------------------------------

  /** The seconds of an instant, and the milliseconds computed back from them, each
      rounded to a double. */
  ghost predicate ThereAndBack(ms: nat, seconds: real, product: real) {
    NearestDouble(ms as real / 1000.0, seconds) && NearestDouble(seconds * 1000.0, product)
  }

  /** Whole seconds come back exactly. */
  lemma WholeSecondsComeBack(ms: nat, seconds: real, product: real)
    requires ThereAndBack(ms, seconds, product) && ms % 1000 == 0 && ms <= TWO53
    ensures product == ms as real
  {
    var s := ms / 1000;
    assert ms as real / 1000.0 == s as real;
    WholeIsDouble(s);
    NearestToItself(s as real, seconds);
    WholeIsDouble(ms);
    NearestToItself(ms as real, product);
  }

  /** So does every millisecond between 2^40 of them and 2^31 seconds, that is from 3 November
      2004 to 19 January 2038: two roundings cannot add up to a step there. */
  lemma RecentInstantsComeBack(ms: nat, seconds: real, product: real)
    requires ThereAndBack(ms, seconds, product) && 1099511627776 < ms <= 2147483648000
    ensures product == ms as real
  {
    Powers();
    NearestIsNear(ms as real / 1000.0, seconds);
    WholeIsDouble(ms);
    var off := Abs(seconds * 1000.0 - ms as real);
    assert off <= 1000.0 / 8388608.0;
    assert Abs(product - seconds * 1000.0) <= Abs(ms as real - seconds * 1000.0);
    assert Abs(product - ms as real) <= 2000.0 / 8388608.0;
    assert product > 1099511627776.0;
    var j := DoubleIsSteps(product, 12);
    assert product * 4096.0 == j as real;
    assert -1.0 < j as real - (ms * 4096) as real < 1.0;
    assert j == ms * 4096;
  }

  const SECONDS_1001 := 4508103226997866.0 / 4503599627370496.0

  const PRODUCT_1001 := 8804889115230207.0 / 8796093022208.0

  /** The instant 1001 does come to these two numbers. */
  lemma ShortInstantExists()
    ensures ThereAndBack(1001, SECONDS_1001, PRODUCT_1001)
  {
    MorePowers();
    assert 1001 as real / 1000.0 == 1.001;
    assert IsDyadic(SECONDS_1001, 4508103226997866, 52) && IsDyadic(PRODUCT_1001, 8804889115230207, 43);
    forall y | Double(y)
      ensures Abs(SECONDS_1001 - 1.001) <= Abs(y - 1.001)
    {
      if y > 1.0 { var j := DoubleIsSteps(y, 52); }
    }
    forall y | Double(y)
      ensures Abs(PRODUCT_1001 - SECONDS_1001 * 1000.0) <= Abs(y - SECONDS_1001 * 1000.0)
    {
      if y > 512.0 { var j := DoubleIsSteps(y, 43); }
    }
  }

  /** The instant 1001 comes back short: its seconds round down, and so does the product. */
  lemma OneShort(seconds: real, product: real)
    requires ThereAndBack(1001, seconds, product)
    ensures seconds == SECONDS_1001 && product.Floor == 1000
  {
    MorePowers();
    assert 1001 as real / 1000.0 == 1.001;
    assert IsDyadic(SECONDS_1001, 4508103226997866, 52);
    AtMost(1.001, seconds, SECONDS_1001);
    var j := DoubleIsSteps(seconds, 52);
    assert j == 4508103226997866;
    assert IsDyadic(PRODUCT_1001, 8804889115230207, 43);
    AtMost(seconds * 1000.0, product, PRODUCT_1001);
  }

  lemma AtMost(x: real, p: real, y: real)
    requires NearestDouble(x, p) && Double(y)
    ensures Abs(p - x) <= Abs(y - x)
  {}
}
