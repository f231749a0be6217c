/** The chart-pattern detectors, long and short forms written out separately, and the
    proof that each short form is the mirror image of its long form. */
module Patterns {
  import opened Wrappers

  datatype Bar = Bar(h: real, l: real, c: real)

  type Points = seq<(int, real)>

  datatype Params = Params(thetaEq: real, thetaShoulder: real, minTouches: int, eps: real, lookback: nat)

  datatype Kind =
    | DOUBLE_TOP | DOUBLE_BOTTOM | HEAD_AND_SHOULDERS | INVERSE_HEAD_AND_SHOULDERS
    | TRIANGLE_ASCENDING | TRIANGLE_DESCENDING | RISING_WEDGE | FALLING_WEDGE

  datatype Side = UP | DOWN

  datatype Anchors =
    | Twins(first: real, second: real, pivot: real)
    | Shoulders(left: real, head: real, right: real, neckline: real)
    | Boundary(boundary: real, lastOther: real)
    | Ends(lastHigh: real, lastLow: real)

  datatype Hit = Hit(kind: Kind, direction: int, index: nat, level: real, side: Side, anchors: Anchors, strength: real)

  function Highs(b: seq<Bar>): (s: seq<real>) { seq(|b|, i requires 0 <= i < |b| => b[i].h) }

  function Lows(b: seq<Bar>): (s: seq<real>) { seq(|b|, i requires 0 <= i < |b| => b[i].l) }

  function Closes(b: seq<Bar>): (s: seq<real>) { seq(|b|, i requires 0 <= i < |b| => b[i].c) }

  function Abs(x: real): (r: real) { if x < 0.0 then -x else x }

  function AtMostOne(x: real): (r: real) { if x < 1.0 then x else 1.0 }

  /** How strong a hit is, against a multiple of the average true range. */
  function Strength(x: real, scale: real, a: real): (r: real)
    requires scale > 0.0 && a > 0.0
  {
    AtMostOne(x / (scale * a))
  }

  predicate Alike(x: real, y: real, theta: real, a: real) { Abs(x - y) <= theta * a }

  lemma AlikeTurns(x: real, y: real, theta: real, a: real)
    ensures Alike(-x, -y, theta, a) <==> Alike(x, y, theta, a)
  {
    assert Abs(-x - -y) == Abs(x - y);
  }

  function MaxOf(s: seq<real>): (m: real)
    requires s != []
  {
    if |s| == 1 then s[0]
    else
      var m := MaxOf(s[..|s| - 1]);
      if s[|s| - 1] > m then s[|s| - 1] else m
  }

  function MinOf(s: seq<real>): (m: real)
    requires s != []
  {
    if |s| == 1 then s[0]
    else
      var m := MinOf(s[..|s| - 1]);
      if s[|s| - 1] < m then s[|s| - 1] else m
  }

  lemma {:induction false} ExtremesLaw(s: seq<real>, i: nat)
    requires i < |s|
    ensures MinOf(s) <= s[i] <= MaxOf(s) && MinOf(s) in s && MaxOf(s) in s
  {
    if |s| > 1 { ExtremesLaw(s[..|s| - 1], if i < |s| - 1 then i else 0); }
  }

  function Slice(s: seq<real>, lo: int, hi: int): (r: seq<real>) { if 0 <= lo <= hi <= |s| then s[lo..hi] else [] }

  function Values(ps: Points): (s: seq<real>) { seq(|ps|, i requires 0 <= i < |ps| => ps[i].1) }

  // ---- swing points -------------------------------------------------------

  predicate IsHigh(b: seq<Bar>, k: nat, i: int)
    requires k <= i < |b| - k
  {
    b[i].h == MaxOf(Highs(b)[i - k..i + k + 1])
  }

  predicate IsLow(b: seq<Bar>, k: nat, i: int)
    requires k <= i < |b| - k
  {
    b[i].l == MinOf(Lows(b)[i - k..i + k + 1])
  }

  /** The swing highs before a position whose right side is closed. */
  function HighsTo(b: seq<Bar>, k: nat, m: int): (ps: Points)
    requires m <= |b| - k || m <= k
    decreases m - k
  {
    if m <= k then [] else HighsTo(b, k, m - 1) + (if IsHigh(b, k, m - 1) then [(m - 1, b[m - 1].h)] else [])
  }

  function LowsTo(b: seq<Bar>, k: nat, m: int): (ps: Points)
    requires m <= |b| - k || m <= k
    decreases m - k
  {
    if m <= k then [] else LowsTo(b, k, m - 1) + (if IsLow(b, k, m - 1) then [(m - 1, b[m - 1].l)] else [])
  }

  datatype Swings = Swings(highs: Points, lows: Points)

  function SwingsOf(b: seq<Bar>, k: nat): (s: Swings) { Swings(HighsTo(b, k, |b| - k), LowsTo(b, k, |b| - k)) }

  method FindSwings(b: seq<Bar>, k: nat) returns (s: Swings)
    ensures s == SwingsOf(b, k)
  {
    hide IsHigh, IsLow;
    var sh: Points, sl: Points := [], [];
    var i: int := k;
    while i < |b| - k
      invariant k <= i && (i <= |b| - k || i == k) && sh == HighsTo(b, k, i) && sl == LowsTo(b, k, i)
    {
      if IsHigh(b, k, i) { sh := sh + [(i, b[i].h)]; }
      if IsLow(b, k, i) { sl := sl + [(i, b[i].l)]; }
      i := i + 1;
    }
    s := Swings(sh, sl);
  }

  /** Points in ascending order of index, all on bars. */
  predicate Placed(ps: Points, n: nat) {
    && (forall i :: 0 <= i < |ps| ==> 0 <= ps[i].0 < n)
    && (forall i, j :: 0 <= i < j < |ps| ==> ps[i].0 <= ps[j].0)
  }

  predicate PlacedSwings(s: Swings, n: nat) { Placed(s.highs, n) && Placed(s.lows, n) }

  predicate PlacedBelow(ps: Points, n: nat, m: int) { Placed(ps, n) && forall i :: 0 <= i < |ps| ==> ps[i].0 < m }

  lemma OneMorePlaced(ps: Points, n: nat, m: int, v: real)
    requires PlacedBelow(ps, n, m) && 0 <= m < n
    ensures PlacedBelow(ps + [(m, v)], n, m + 1) && PlacedBelow(ps, n, m + 1)
  {}

  lemma NonePlaced(n: nat, m: int)
    ensures PlacedBelow([], n, m)
  {}

  lemma {:induction false} SwingsArePlaced(b: seq<Bar>, k: nat, m: int)
    requires m <= |b| - k || m <= k
    ensures PlacedBelow(HighsTo(b, k, m), |b|, m) && PlacedBelow(LowsTo(b, k, m), |b|, m)
    decreases m - k
  {
    hide IsHigh, IsLow, PlacedBelow;
    NonePlaced(|b|, m);
    if m > k {
      SwingsArePlaced(b, k, m - 1);
      OneMoreSwing(b, k, m);
      OneMorePlaced(HighsTo(b, k, m - 1), |b|, m - 1, b[m - 1].h);
      OneMorePlaced(LowsTo(b, k, m - 1), |b|, m - 1, b[m - 1].l);
    }
  }

  lemma OneMoreSwing(b: seq<Bar>, k: nat, m: int)
    requires k < m <= |b| - k
    ensures HighsTo(b, k, m) == HighsTo(b, k, m - 1) + [(m - 1, b[m - 1].h)] || HighsTo(b, k, m) == HighsTo(b, k, m - 1)
    ensures LowsTo(b, k, m) == LowsTo(b, k, m - 1) + [(m - 1, b[m - 1].l)] || LowsTo(b, k, m) == LowsTo(b, k, m - 1)
  {
    hide IsHigh, IsLow;
    var sh, sl := HighsTo(b, k, m - 1), LowsTo(b, k, m - 1);
    assert sh + [] == sh && sl + [] == sl;
  }

  // ---- searches over closes -----------------------------------------------

  function FirstBelow(cs: seq<real>, j: int, level: real): (r: Option<nat>)
    requires 0 <= j
    decreases |cs| - j
  {
    if j >= |cs| then None else if cs[j] < level then Some(j) else FirstBelow(cs, j + 1, level)
  }

  function FirstAbove(cs: seq<real>, j: int, level: real): (r: Option<nat>)
    requires 0 <= j
    decreases |cs| - j
  {
    if j >= |cs| then None else if cs[j] > level then Some(j) else FirstAbove(cs, j + 1, level)
  }

  function LastBelow(cs: seq<real>, n: nat, level: real): (r: Option<nat>)
    requires n <= |cs|
  {
    if n == 0 then None else if cs[n - 1] < level then Some(n - 1) else LastBelow(cs, n - 1, level)
  }

  function LastAbove(cs: seq<real>, n: nat, level: real): (r: Option<nat>)
    requires n <= |cs|
  {
    if n == 0 then None else if cs[n - 1] > level then Some(n - 1) else LastAbove(cs, n - 1, level)
  }

  // ---- double top and bottom ----------------------------------------------

  function TopHit(p: Params, a: real, h1: real, h2: real, between: seq<real>, cs: seq<real>, from: int): (r: Option<Hit>)
    requires a > 0.0 && from >= 0
  {
    if !Alike(h1, h2, p.thetaEq, a) || between == [] then None
    else
      var pivot := MinOf(between);
      var j := FirstBelow(cs, from, pivot - p.eps);
      if j == None then None
      else Some(Hit(DOUBLE_TOP, -1, j.value, h2, UP, Twins(h1, h2, pivot), Strength(Abs(h2 - pivot), 2.0, a)))
  }

  function BottomHit(p: Params, a: real, l1: real, l2: real, between: seq<real>, cs: seq<real>, from: int): (r: Option<Hit>)
    requires a > 0.0 && from >= 0
  {
    if !Alike(l1, l2, p.thetaEq, a) || between == [] then None
    else
      var pivot := MaxOf(between);
      var j := FirstAbove(cs, from, pivot + p.eps);
      if j == None then None
      else Some(Hit(DOUBLE_BOTTOM, 1, j.value, l2, DOWN, Twins(l1, l2, pivot), Strength(Abs(pivot - l2), 2.0, a)))
  }

  /** Two neighbouring highs, with the lows between them and the closes after. */
  function DoubleTopAt(p: Params, a: real, b: seq<Bar>, s: Swings, i: nat): (r: Option<Hit>)
    requires 1 <= i < |s.highs| && PlacedSwings(s, |b|) && a > 0.0
  {
    var (i1, h1) := s.highs[i - 1];
    var (i2, h2) := s.highs[i];
    TopHit(p, a, h1, h2, Slice(Lows(b), i1 + 1, i2), Closes(b), i2 + 1)
  }

  function DoubleBottomAt(p: Params, a: real, b: seq<Bar>, s: Swings, i: nat): (r: Option<Hit>)
    requires 1 <= i < |s.lows| && PlacedSwings(s, |b|) && a > 0.0
  {
    var (i1, l1) := s.lows[i - 1];
    var (i2, l2) := s.lows[i];
    BottomHit(p, a, l1, l2, Slice(Highs(b), i1 + 1, i2), Closes(b), i2 + 1)
  }

  function DoubleTopFrom(p: Params, a: real, b: seq<Bar>, s: Swings, i: nat): (r: Option<Hit>)
    requires 1 <= i && PlacedSwings(s, |b|) && a > 0.0
    decreases |s.highs| - i
  {
    if i >= |s.highs| then None
    else var r := DoubleTopAt(p, a, b, s, i); if r.Some? then r else DoubleTopFrom(p, a, b, s, i + 1)
  }

  function DoubleBottomFrom(p: Params, a: real, b: seq<Bar>, s: Swings, i: nat): (r: Option<Hit>)
    requires 1 <= i && PlacedSwings(s, |b|) && a > 0.0
    decreases |s.lows| - i
  {
    if i >= |s.lows| then None
    else var r := DoubleBottomAt(p, a, b, s, i); if r.Some? then r else DoubleBottomFrom(p, a, b, s, i + 1)
  }

  // ---- head and shoulders -------------------------------------------------

  function Within(ps: Points, lo: int, hi: int): (s: seq<real>) {
    if ps == [] then []
    else Within(ps[..|ps| - 1], lo, hi) + (if lo < ps[|ps| - 1].0 < hi then [ps[|ps| - 1].1] else [])
  }

  function Sum(s: seq<real>): (x: real) { if s == [] then 0.0 else Sum(s[..|s| - 1]) + s[|s| - 1] }

  /** The neckline: the opposite swings between the shoulders, or else the two extremes
      there. The sum is halved however many there are. */
  function Neckline(inverse: bool, between: seq<real>, left: seq<real>, right: seq<real>): (x: real)
    requires left != [] && right != []
  {
    Sum(if between != [] then between
        else if inverse then [MaxOf(left), MaxOf(right)]
        else [MinOf(left), MinOf(right)]) / 2.0
  }

  function HeadHit(p: Params, a: real, inverse: bool, v1: real, v2: real, v3: real, neckline: real, cs: seq<real>, from: int): (r: Option<Hit>)
    requires a > 0.0 && from >= 0
  {
    var extreme := if inverse then v2 < v1 && v2 < v3 else v2 > v1 && v2 > v3;
    if !extreme || !Alike(v1, v3, p.thetaShoulder, a) then None
    else
      var j := if inverse then FirstAbove(cs, from, neckline + p.eps) else FirstBelow(cs, from, neckline - p.eps);
      if j == None then None
      else Some(Hit(
        if inverse then INVERSE_HEAD_AND_SHOULDERS else HEAD_AND_SHOULDERS, if inverse then 1 else -1, j.value, v3,
        if inverse then DOWN else UP, Shoulders(v1, v2, v3, neckline), Strength(Abs(v2 - neckline), 3.0, a)))
  }

  function NecklineOf(inverse: bool, b: seq<Bar>, s: Swings, i1: int, i2: int, i3: int): (x: real)
    requires 0 <= i1 <= i2 <= i3 < |b|
  {
    var view := if inverse then Highs(b) else Lows(b);
    Neckline(inverse, Within(if inverse then s.highs else s.lows, i1, i3), view[i1..i2 + 1], view[i2..i3 + 1])
  }

  function ShouldersAt(p: Params, a: real, b: seq<Bar>, s: Swings, inverse: bool, i: nat): (r: Option<Hit>)
    requires PlacedSwings(s, |b|) && a > 0.0 && i + 2 < |if inverse then s.lows else s.highs|
  {
    var pts := if inverse then s.lows else s.highs;
    var (i1, v1) := pts[i];
    var (i2, v2) := pts[i + 1];
    var (i3, v3) := pts[i + 2];
    HeadHit(p, a, inverse, v1, v2, v3, NecklineOf(inverse, b, s, i1, i2, i3), Closes(b), i3 + 1)
  }

  function ShouldersFrom(p: Params, a: real, b: seq<Bar>, s: Swings, inverse: bool, i: nat): (r: Option<Hit>)
    requires PlacedSwings(s, |b|) && a > 0.0
    decreases |if inverse then s.lows else s.highs| - i
  {
    if i + 2 >= |if inverse then s.lows else s.highs| then None
    else var r := ShouldersAt(p, a, b, s, inverse, i); if r.Some? then r else ShouldersFrom(p, a, b, s, inverse, i + 1)
  }

  // ---- triangles and wedges -----------------------------------------------

  function Touches(vals: seq<real>, level: real, a: real, eps: real): (n: nat) {
    if vals == [] then 0
    else Touches(vals[..|vals| - 1], level, a, eps) + (if Abs(vals[|vals| - 1] - level) <= 0.15 * a + eps then 1 else 0)
  }

  predicate Rising(vals: seq<real>) { forall i :: 0 < i < |vals| ==> vals[i - 1] < vals[i] }

  predicate Falling(vals: seq<real>) { forall i :: 0 < i < |vals| ==> vals[i - 1] > vals[i] }

  /** Equal highs under higher lows. */
  function AscendingHit(p: Params, a: real, hs: seq<real>, ls: seq<real>, cs: seq<real>): (r: Option<Hit>)
    requires a > 0.0
  {
    if |hs| < 2 || |ls| < 2 then None
    else
      var flat := MaxOf(hs);
      var other := ls[|ls| - 1];
      if Touches(hs, flat, a, p.eps) < p.minTouches || !Rising(ls) then None
      else
        var j := FirstAbove(cs, 1, flat + p.eps);
        if j == None then None
        else Some(Hit(TRIANGLE_ASCENDING, 1, j.value, other, DOWN, Boundary(flat, other), Strength(Abs(flat - other), 2.0, a)))
  }

  /** Equal lows under lower highs. */
  function DescendingHit(p: Params, a: real, hs: seq<real>, ls: seq<real>, cs: seq<real>): (r: Option<Hit>)
    requires a > 0.0
  {
    if |hs| < 2 || |ls| < 2 then None
    else
      var flat := MinOf(ls);
      var other := hs[|hs| - 1];
      if Touches(ls, flat, a, p.eps) < p.minTouches || !Falling(hs) then None
      else
        var j := FirstBelow(cs, 1, flat - p.eps);
        if j == None then None
        else Some(Hit(TRIANGLE_DESCENDING, -1, j.value, other, UP, Boundary(flat, other), Strength(Abs(flat - other), 2.0, a)))
  }

  function RisingWedge(p: Params, a: real, b: seq<Bar>, s: Swings): (r: Option<Hit>)
    requires a > 0.0
  {
    var n, m := |s.highs|, |s.lows|;
    if n < 2 || m < 2 then None
    else
      var (h2, h1, l2, l1) := (s.highs[n - 2].1, s.highs[n - 1].1, s.lows[m - 2].1, s.lows[m - 1].1);
      if !(h1 > h2 && l1 > l2) || !(h1 - l1 < h2 - l2) then None
      else
        var j := LastBelow(Closes(b), |b|, l1 - p.eps);
        if j == None then None
        else Some(Hit(RISING_WEDGE, -1, j.value, h1, UP, Ends(h1, l1), Strength(h1 - l1, 2.0, a)))
  }

  function FallingWedge(p: Params, a: real, b: seq<Bar>, s: Swings): (r: Option<Hit>)
    requires a > 0.0
  {
    var n, m := |s.highs|, |s.lows|;
    if n < 2 || m < 2 then None
    else
      var (h2, h1, l2, l1) := (s.highs[n - 2].1, s.highs[n - 1].1, s.lows[m - 2].1, s.lows[m - 1].1);
      if !(h1 < h2 && l1 < l2) || !(h1 - l1 < h2 - l2) then None
      else
        var j := LastAbove(Closes(b), |b|, h1 + p.eps);
        if j == None then None
        else Some(Hit(FALLING_WEDGE, 1, j.value, l1, DOWN, Ends(h1, l1), Strength(h1 - l1, 2.0, a)))
  }

  // ---- one entry point ----------------------------------------------------

  predicate WellFormed(b: seq<Bar>) { forall i :: 0 <= i < |b| ==> b[i].h >= b[i].l }

  function OnSwings(p: Params, kind: Kind, b: seq<Bar>, a: real, s: Swings): (r: Option<Hit>)
    requires a > 0.0 && PlacedSwings(s, |b|)
  {
    match kind
    case DOUBLE_TOP => DoubleTopFrom(p, a, b, s, 1)
    case DOUBLE_BOTTOM => DoubleBottomFrom(p, a, b, s, 1)
    case HEAD_AND_SHOULDERS => ShouldersFrom(p, a, b, s, false, 0)
    case INVERSE_HEAD_AND_SHOULDERS => ShouldersFrom(p, a, b, s, true, 0)
    case TRIANGLE_ASCENDING => AscendingHit(p, a, Values(s.highs), Values(s.lows), Closes(b))
    case TRIANGLE_DESCENDING => DescendingHit(p, a, Values(s.highs), Values(s.lows), Closes(b))
    case RISING_WEDGE => RisingWedge(p, a, b, s)
    case FALLING_WEDGE => FallingWedge(p, a, b, s)
  }

  /** A detector on its own swings. */
  function Detect(p: Params, kind: Kind, b: seq<Bar>, a: real): (r: Result<Option<Hit>, string>) {
    if a <= 0.0 then Err("PATTERN_ATR_QX")
    else if !WellFormed(b) then Err("PATTERN_BAR_QX")
    else
      SwingsArePlaced(b, p.lookback, |b| - p.lookback);
      Ok(OnSwings(p, kind, b, a, SwingsOf(b, p.lookback)))
  }

  // ---- the searches as loops ----------------------------------------------

  method SearchBelow(cs: seq<real>, from: int, level: real) returns (r: Option<nat>)
    requires from >= 0
    ensures r == FirstBelow(cs, from, level)
  {
    var j := from;
    while j < |cs|
      invariant from <= j && FirstBelow(cs, j, level) == FirstBelow(cs, from, level)
    {
      if cs[j] < level { return Some(j); }
      j := j + 1;
    }
    return None;
  }

  method SearchAbove(cs: seq<real>, from: int, level: real) returns (r: Option<nat>)
    requires from >= 0
    ensures r == FirstAbove(cs, from, level)
  {
    var j := from;
    while j < |cs|
      invariant from <= j && FirstAbove(cs, j, level) == FirstAbove(cs, from, level)
    {
      if cs[j] > level { return Some(j); }
      j := j + 1;
    }
    return None;
  }

  method DetectDoubleTop(p: Params, b: seq<Bar>, a: real) returns (r: Result<Option<Hit>, string>)
    ensures r == Detect(p, DOUBLE_TOP, b, a)
  {
    hide HighsTo, LowsTo, WellFormed, Alike, Strength, Slice, Closes, Lows;
    if a <= 0.0 { return Err("PATTERN_ATR_QX"); }
    if !WellFormed(b) { return Err("PATTERN_BAR_QX"); }
    SwingsArePlaced(b, p.lookback, |b| - p.lookback);
    var s := FindSwings(b, p.lookback);
    var i: nat := 1;
    while i < |s.highs|
      invariant 1 <= i && DoubleTopFrom(p, a, b, s, i) == DoubleTopFrom(p, a, b, s, 1)
    {
      var (i1, h1) := s.highs[i - 1];
      var (i2, h2) := s.highs[i];
      var between := Slice(Lows(b), i1 + 1, i2);
      if Alike(h1, h2, p.thetaEq, a) && between != [] {
        var pivot := MinOf(between);
        var j := SearchBelow(Closes(b), i2 + 1, pivot - p.eps);
        if j.Some? {
          return Ok(Some(Hit(DOUBLE_TOP, -1, j.value, h2, UP, Twins(h1, h2, pivot), Strength(Abs(h2 - pivot), 2.0, a))));
        }
      }
      i := i + 1;
    }
    return Ok(None);
  }

  method DetectShoulders(p: Params, b: seq<Bar>, a: real, inverse: bool) returns (r: Result<Option<Hit>, string>)
    ensures r == Detect(p, if inverse then INVERSE_HEAD_AND_SHOULDERS else HEAD_AND_SHOULDERS, b, a)
  {
    hide HighsTo, LowsTo, WellFormed, ShouldersAt, PlacedSwings;
    if a <= 0.0 { return Err("PATTERN_ATR_QX"); }
    if !WellFormed(b) { return Err("PATTERN_BAR_QX"); }
    var s := FindSwings(b, p.lookback);
    OwnSwingsArePlaced(b, p.lookback);
    var pts := if inverse then s.lows else s.highs;
    var i: nat := 0;
    while i + 2 < |pts|
      invariant ShouldersFrom(p, a, b, s, inverse, i) == ShouldersFrom(p, a, b, s, inverse, 0)
    {
      var hit := TryShoulders(p, a, b, s, inverse, i);
      if hit.Some? { return Ok(hit); }
      i := i + 1;
    }
    return Ok(None);
  }

  lemma OwnSwingsArePlaced(b: seq<Bar>, k: nat)
    ensures PlacedSwings(SwingsOf(b, k), |b|)
  {
    SwingsArePlaced(b, k, |b| - k);
  }

  method TryShoulders(p: Params, a: real, b: seq<Bar>, s: Swings, inverse: bool, i: nat) returns (r: Option<Hit>)
    requires PlacedSwings(s, |b|) && a > 0.0 && i + 2 < |if inverse then s.lows else s.highs|
    ensures r == ShouldersAt(p, a, b, s, inverse, i)
  {
    hide Alike, Strength, Closes, NecklineOf, FirstAbove, FirstBelow;
    var pts := if inverse then s.lows else s.highs;
    var (i1, v1) := pts[i];
    var (i2, v2) := pts[i + 1];
    var (i3, v3) := pts[i + 2];
    var extreme := if inverse then v2 < v1 && v2 < v3 else v2 > v1 && v2 > v3;
    if !extreme || !Alike(v1, v3, p.thetaShoulder, a) { return None; }
    var neckline := NecklineOf(inverse, b, s, i1, i2, i3);
    var j: Option<nat>;
    if inverse {
      j := SearchAbove(Closes(b), i3 + 1, neckline + p.eps);
    } else {
      j := SearchBelow(Closes(b), i3 + 1, neckline - p.eps);
    }
    if j == None { return None; }
    return Some(Hit(
      if inverse then INVERSE_HEAD_AND_SHOULDERS else HEAD_AND_SHOULDERS, if inverse then 1 else -1, j.value, v3,
      if inverse then DOWN else UP, Shoulders(v1, v2, v3, neckline), Strength(Abs(v2 - neckline), 3.0, a)));
  }

  // ---- the mirror ---------------------------------------------------------

  function Turned(b: seq<Bar>): (r: seq<Bar>) { seq(|b|, i requires 0 <= i < |b| => Bar(-b[i].l, -b[i].h, -b[i].c)) }

  function Negated(s: seq<real>): (r: seq<real>) { seq(|s|, i requires 0 <= i < |s| => -s[i]) }

  function TurnedPoints(ps: Points): (r: Points) { seq(|ps|, i requires 0 <= i < |ps| => (ps[i].0, -ps[i].1)) }

  function TurnedSwings(s: Swings): (r: Swings) { Swings(TurnedPoints(s.lows), TurnedPoints(s.highs)) }

  function Opposite(kind: Kind): (r: Kind) {
    match kind
    case DOUBLE_TOP => DOUBLE_BOTTOM case DOUBLE_BOTTOM => DOUBLE_TOP
    case HEAD_AND_SHOULDERS => INVERSE_HEAD_AND_SHOULDERS case INVERSE_HEAD_AND_SHOULDERS => HEAD_AND_SHOULDERS
    case TRIANGLE_ASCENDING => TRIANGLE_DESCENDING case TRIANGLE_DESCENDING => TRIANGLE_ASCENDING
    case RISING_WEDGE => FALLING_WEDGE case FALLING_WEDGE => RISING_WEDGE
  }

  function TurnedAnchors(x: Anchors): (r: Anchors) {
    match x
    case Twins(f, s, v) => Twins(-f, -s, -v)
    case Shoulders(l, h, r, n) => Shoulders(-l, -h, -r, -n)
    case Boundary(v, o) => Boundary(-v, -o)
    case Ends(h, l) => Ends(-l, -h)
  }

  function TurnedHit(h: Hit): (r: Hit) {
    Hit(Opposite(h.kind), -h.direction, h.index, -h.level, if h.side == UP then DOWN else UP, TurnedAnchors(h.anchors), h.strength)
  }

  function TurnedOption(h: Option<Hit>): (r: Option<Hit>) { if h == None then None else Some(TurnedHit(h.value)) }

  lemma TurnedViews(b: seq<Bar>)
    ensures Highs(Turned(b)) == Negated(Lows(b)) && Lows(Turned(b)) == Negated(Highs(b)) && Closes(Turned(b)) == Negated(Closes(b))
    ensures WellFormed(Turned(b)) <==> WellFormed(b)
    ensures |Turned(b)| == |b| && Turned(Turned(b)) == b
  {
    if WellFormed(Turned(b)) {
      forall i | 0 <= i < |b|
        ensures b[i].h >= b[i].l
      {
        assert Turned(b)[i].h >= Turned(b)[i].l;
      }
    }
  }

  lemma {:induction false} MaxOfNegated(s: seq<real>)
    requires s != []
    ensures MaxOf(Negated(s)) == -MinOf(s) && MinOf(Negated(s)) == -MaxOf(s)
  {
    if |s| > 1 {
      MaxOfNegated(s[..|s| - 1]);
      assert Negated(s)[..|s| - 1] == Negated(s[..|s| - 1]);
    }
  }

  lemma {:induction false} FirstTurned(cs: seq<real>, j: int, level: real)
    requires 0 <= j
    ensures FirstAbove(Negated(cs), j, -level) == FirstBelow(cs, j, level) && FirstBelow(Negated(cs), j, -level) == FirstAbove(cs, j, level)
    decreases |cs| - j
  {
    if j < |cs| { FirstTurned(cs, j + 1, level); }
  }

  lemma {:induction false} LastTurned(cs: seq<real>, n: nat, level: real)
    requires n <= |cs|
    ensures LastAbove(Negated(cs), n, -level) == LastBelow(cs, n, level) && LastBelow(Negated(cs), n, -level) == LastAbove(cs, n, level)
  {
    if n > 0 { LastTurned(cs, n - 1, level); }
  }

  lemma TurnedSlice(s: seq<real>, lo: int, hi: int)
    ensures Slice(Negated(s), lo, hi) == Negated(Slice(s, lo, hi))
  {}

  lemma {:induction false} TurnedWithin(ps: Points, lo: int, hi: int)
    ensures Within(TurnedPoints(ps), lo, hi) == Negated(Within(ps, lo, hi))
  {
    if ps != [] {
      TurnedWithin(ps[..|ps| - 1], lo, hi);
      assert TurnedPoints(ps)[..|ps| - 1] == TurnedPoints(ps[..|ps| - 1]);
    }
  }

  lemma {:induction false} TurnedSum(s: seq<real>)
    ensures Sum(Negated(s)) == -Sum(s)
  {
    if s != [] {
      TurnedSum(s[..|s| - 1]);
      assert Negated(s)[..|s| - 1] == Negated(s[..|s| - 1]);
    }
  }

  lemma {:induction false} TurnedTouches(vals: seq<real>, level: real, a: real, eps: real)
    ensures Touches(Negated(vals), -level, a, eps) == Touches(vals, level, a, eps)
  {
    if vals != [] {
      TurnedTouches(vals[..|vals| - 1], level, a, eps);
      assert Negated(vals)[..|vals| - 1] == Negated(vals[..|vals| - 1]);
    }
  }

  lemma TurnedPlaced(s: Swings, n: nat)
    requires PlacedSwings(s, n)
    ensures PlacedSwings(TurnedSwings(s), n)
  {}

  lemma TurnedTwice(s: Swings, b: seq<Bar>, h: Option<Hit>)
    ensures TurnedSwings(TurnedSwings(s)) == s && Turned(Turned(b)) == b && TurnedOption(TurnedOption(h)) == h
  {
    assert TurnedPoints(TurnedPoints(s.highs)) == s.highs && TurnedPoints(TurnedPoints(s.lows)) == s.lows;
  }

  lemma TopTurns(p: Params, a: real, h1: real, h2: real, between: seq<real>, cs: seq<real>, from: int)
    requires a > 0.0 && from >= 0
    ensures BottomHit(p, a, -h1, -h2, Negated(between), Negated(cs), from) == TurnedOption(TopHit(p, a, h1, h2, between, cs, from))
  {
    AlikeTurns(h1, h2, p.thetaEq, a);
    NegatedEmpty(between);
    hide MaxOf, MinOf, FirstBelow, FirstAbove, Strength, Alike, Negated;
    if between != [] {
      MaxOfNegated(between);
      FirstTurned(cs, from, MinOf(between) - p.eps);
      assert Abs(-MinOf(between) - -h2) == Abs(h2 - MinOf(between));
    }
  }

  /** Both sides of the mirror, in terms of the pair of highs. */
  lemma DoubleUnfolds(p: Params, a: real, b: seq<Bar>, s: Swings, i: nat)
    requires 1 <= i < |s.highs| && PlacedSwings(s, |b|) && PlacedSwings(TurnedSwings(s), |Turned(b)|) && a > 0.0
    ensures var (x, y) := (s.highs[i - 1], s.highs[i]);
            && 0 <= x.0 && 0 <= y.0
            && DoubleTopAt(p, a, b, s, i) == TopHit(p, a, x.1, y.1, Slice(Lows(b), x.0 + 1, y.0), Closes(b), y.0 + 1)
            && DoubleBottomAt(p, a, Turned(b), TurnedSwings(s), i)
            == BottomHit(p, a, -x.1, -y.1, Slice(Highs(Turned(b)), x.0 + 1, y.0), Closes(Turned(b)), y.0 + 1)
  {
    hide TopHit, BottomHit, Turned, Highs, Lows, Closes, Slice;
    assert s.highs[i - 1].0 >= 0 && s.highs[i].0 >= 0;
    hide PlacedSwings;
  }

  lemma DoubleTurns(p: Params, a: real, b: seq<Bar>, s: Swings, i: nat)
    requires 1 <= i < |s.highs| && PlacedSwings(s, |b|) && PlacedSwings(TurnedSwings(s), |Turned(b)|) && a > 0.0
    ensures DoubleBottomAt(p, a, Turned(b), TurnedSwings(s), i) == TurnedOption(DoubleTopAt(p, a, b, s, i))
  {
    hide PlacedSwings, DoubleTopAt, DoubleBottomAt, TopHit, BottomHit, Turned, Highs, Lows, Closes, Slice, Negated, TurnedOption, WellFormed;
    var (x, y) := (s.highs[i - 1], s.highs[i]);
    DoubleUnfolds(p, a, b, s, i);
    TurnedViews(b);
    TurnedSlice(Lows(b), x.0 + 1, y.0);
    TopTurns(p, a, x.1, y.1, Slice(Lows(b), x.0 + 1, y.0), Closes(b), y.0 + 1);
  }

  lemma {:induction false} DoublesTurn(p: Params, a: real, b: seq<Bar>, s: Swings, i: nat)
    requires 1 <= i && PlacedSwings(s, |b|) && PlacedSwings(TurnedSwings(s), |Turned(b)|) && a > 0.0
    ensures DoubleBottomFrom(p, a, Turned(b), TurnedSwings(s), i) == TurnedOption(DoubleTopFrom(p, a, b, s, i))
    decreases |s.highs| - i
  {
    hide DoubleTopAt, DoubleBottomAt, PlacedSwings, Turned;
    if i < |s.highs| {
      DoubleTurns(p, a, b, s, i);
      DoublesTurn(p, a, b, s, i + 1);
    }
  }

  lemma NecklineTurns(between: seq<real>, left: seq<real>, right: seq<real>)
    requires left != [] && right != []
    ensures Negated(left) != [] && Negated(right) != []
    ensures Neckline(true, Negated(between), Negated(left), Negated(right)) == -Neckline(false, between, left, right)
  {
    NegatedEmpty(between);
    NegatedEmpty(left);
    NegatedEmpty(right);
    NegatedPair(MinOf(left), MinOf(right));
    hide MaxOf, MinOf, Sum, Negated;
    MaxOfNegated(left);
    MaxOfNegated(right);
    TurnedSum(between);
    TurnedSum([MinOf(left), MinOf(right)]);
  }

  lemma NegatedPart(s: seq<real>, lo: int, hi: int)
    requires 0 <= lo <= hi <= |s|
    ensures |Negated(s)| == |s| && Negated(s)[lo..hi] == Negated(s[lo..hi])
  {}

  lemma NegatedPair(x: real, y: real)
    ensures Negated([x, y]) == [-x, -y]
  {}

  lemma NegatedEmpty(s: seq<real>)
    ensures Negated(s) == [] <==> s == []
  {}

  lemma NecklineOfTurned(b: seq<Bar>, s: Swings, i1: int, i2: int, i3: int)
    requires 0 <= i1 <= i2 <= i3 < |b| && |Turned(b)| == |b|
    ensures NecklineOf(true, Turned(b), TurnedSwings(s), i1, i2, i3) == -NecklineOf(false, b, s, i1, i2, i3)
  {
    TurnedViews(b);
    TurnedWithin(s.lows, i1, i3);
    NegatedPart(Lows(b), i1, i2 + 1);
    NegatedPart(Lows(b), i2, i3 + 1);
    NecklineTurns(Within(s.lows, i1, i3), Lows(b)[i1..i2 + 1], Lows(b)[i2..i3 + 1]);
    hide Neckline, Within, Turned, Negated, TurnedPoints;
  }

  lemma HeadTurns(p: Params, a: real, v1: real, v2: real, v3: real, neckline: real, cs: seq<real>, from: int)
    requires a > 0.0 && from >= 0
    ensures HeadHit(p, a, true, -v1, -v2, -v3, -neckline, Negated(cs), from) == TurnedOption(HeadHit(p, a, false, v1, v2, v3, neckline, cs, from))
  {
    AlikeTurns(v1, v3, p.thetaShoulder, a);
    hide FirstBelow, FirstAbove, Strength, Alike, Negated;
    FirstTurned(cs, from, neckline - p.eps);
    assert Abs(-v2 - -neckline) == Abs(v2 - neckline);
  }

  lemma ThreeInOrder(s: Swings, n: nat, i: nat)
    requires PlacedSwings(s, n) && i + 2 < |s.highs|
    ensures 0 <= s.highs[i].0 <= s.highs[i + 1].0 <= s.highs[i + 2].0 < n
  {}

  lemma ShouldersUnfold(p: Params, a: real, b: seq<Bar>, s: Swings, i: nat)
    requires PlacedSwings(s, |b|) && PlacedSwings(TurnedSwings(s), |Turned(b)|) && a > 0.0 && i + 2 < |s.highs| && |Turned(b)| == |b|
    ensures var (x, y, z) := (s.highs[i], s.highs[i + 1], s.highs[i + 2]);
            && 0 <= x.0 <= y.0 <= z.0 < |b|
            && ShouldersAt(p, a, b, s, false, i)
            == HeadHit(p, a, false, x.1, y.1, z.1, NecklineOf(false, b, s, x.0, y.0, z.0), Closes(b), z.0 + 1)
            && ShouldersAt(p, a, Turned(b), TurnedSwings(s), true, i)
            == HeadHit(p, a, true, -x.1, -y.1, -z.1, NecklineOf(true, Turned(b), TurnedSwings(s), x.0, y.0, z.0), Closes(Turned(b)), z.0 + 1)
  {
    hide HeadHit, NecklineOf, Turned, Closes;
    ThreeInOrder(s, |b|, i);
    hide PlacedSwings;
  }

  lemma ShouldersTurn(p: Params, a: real, b: seq<Bar>, s: Swings, i: nat)
    requires PlacedSwings(s, |b|) && PlacedSwings(TurnedSwings(s), |Turned(b)|) && a > 0.0 && i + 2 < |s.highs|
    ensures ShouldersAt(p, a, Turned(b), TurnedSwings(s), true, i) == TurnedOption(ShouldersAt(p, a, b, s, false, i))
  {
    hide PlacedSwings, ShouldersAt, HeadHit, NecklineOf, Turned, Closes, Negated, TurnedOption, Highs, Lows, WellFormed;
    var (x, y, z) := (s.highs[i], s.highs[i + 1], s.highs[i + 2]);
    TurnedViews(b);
    ShouldersUnfold(p, a, b, s, i);
    NecklineOfTurned(b, s, x.0, y.0, z.0);
    HeadTurns(p, a, x.1, y.1, z.1, NecklineOf(false, b, s, x.0, y.0, z.0), Closes(b), z.0 + 1);
  }

  lemma {:induction false} AllShouldersTurn(p: Params, a: real, b: seq<Bar>, s: Swings, i: nat)
    requires PlacedSwings(s, |b|) && PlacedSwings(TurnedSwings(s), |Turned(b)|) && a > 0.0
    ensures ShouldersFrom(p, a, Turned(b), TurnedSwings(s), true, i) == TurnedOption(ShouldersFrom(p, a, b, s, false, i))
    decreases |s.highs| - i
  {
    hide ShouldersAt, PlacedSwings, Turned;
    if i + 2 < |s.highs| {
      ShouldersTurn(p, a, b, s, i);
      AllShouldersTurn(p, a, b, s, i + 1);
    }
  }

  lemma TriangleTurns(p: Params, a: real, hs: seq<real>, ls: seq<real>, cs: seq<real>)
    requires a > 0.0
    ensures DescendingHit(p, a, Negated(ls), Negated(hs), Negated(cs)) == TurnedOption(AscendingHit(p, a, hs, ls, cs))
  {
    RisingTurns(ls);
    hide MaxOf, MinOf, Touches, FirstBelow, FirstAbove, Strength, Rising, Falling;
    if |hs| >= 2 && |ls| >= 2 {
      MaxOfNegated(hs);
      TurnedTouches(hs, MaxOf(hs), a, p.eps);
      FirstTurned(cs, 1, MaxOf(hs) + p.eps);
      assert Abs(-MaxOf(hs) - -ls[|ls| - 1]) == Abs(MaxOf(hs) - ls[|ls| - 1]);
    }
  }

  lemma TriangleViews(b: seq<Bar>, s: Swings)
    ensures Values(TurnedSwings(s).highs) == Negated(Values(s.lows)) && Values(TurnedSwings(s).lows) == Negated(Values(s.highs))
    ensures Closes(Turned(b)) == Negated(Closes(b))
  {}

  lemma RisingTurns(vals: seq<real>)
    ensures Falling(Negated(vals)) <==> Rising(vals)
  {
    if Falling(Negated(vals)) {
      forall i | 0 < i < |vals|
        ensures vals[i - 1] < vals[i]
      {
        assert Negated(vals)[i - 1] > Negated(vals)[i];
      }
    }
  }

  lemma WedgeTurns(p: Params, a: real, b: seq<Bar>, s: Swings)
    requires a > 0.0
    ensures FallingWedge(p, a, Turned(b), TurnedSwings(s)) == TurnedOption(RisingWedge(p, a, b, s))
  {
    TurnedViews(b);
    hide LastBelow, LastAbove, Turned, Strength;
    assert |Turned(b)| == |b| == |Closes(b)|;
    if |s.lows| >= 2 { LastTurned(Closes(b), |b|, s.lows[|s.lows| - 1].1 - p.eps); }
  }

  /** On given swings, the turned detector on turned bars finds the turned hit. */
  lemma LongFormsTurn(p: Params, kind: Kind, b: seq<Bar>, a: real, s: Swings)
    requires a > 0.0 && PlacedSwings(s, |b|) && PlacedSwings(TurnedSwings(s), |Turned(b)|)
    requires kind in {DOUBLE_TOP, HEAD_AND_SHOULDERS, TRIANGLE_ASCENDING, RISING_WEDGE}
    ensures OnSwings(p, Opposite(kind), Turned(b), a, TurnedSwings(s)) == TurnedOption(OnSwings(p, kind, b, a, s))
  {
    hide DoubleTopFrom, DoubleBottomFrom, ShouldersFrom, AscendingHit, DescendingHit, RisingWedge, FallingWedge, PlacedSwings, TurnedOption, Turned;
    hide Values, Closes, TurnedSwings, Negated;
    match kind {
      case DOUBLE_TOP => DoublesTurn(p, a, b, s, 1);
      case HEAD_AND_SHOULDERS => AllShouldersTurn(p, a, b, s, 0);
      case TRIANGLE_ASCENDING =>
        TriangleViews(b, s);
        TriangleTurns(p, a, Values(s.highs), Values(s.lows), Closes(b));
      case _ => WedgeTurns(p, a, b, s);
    }
  }

  lemma DetectorsTurn(p: Params, kind: Kind, b: seq<Bar>, a: real, s: Swings)
    requires a > 0.0 && PlacedSwings(s, |b|) && PlacedSwings(TurnedSwings(s), |Turned(b)|)
    ensures OnSwings(p, Opposite(kind), Turned(b), a, TurnedSwings(s)) == TurnedOption(OnSwings(p, kind, b, a, s))
  {
    hide OnSwings, PlacedSwings;
    if kind in {DOUBLE_TOP, HEAD_AND_SHOULDERS, TRIANGLE_ASCENDING, RISING_WEDGE} {
      LongFormsTurn(p, kind, b, a, s);
    } else {
      TurnedTwice(s, b, None);
      LongFormsTurn(p, Opposite(kind), Turned(b), a, TurnedSwings(s));
      TurnedTwice(s, b, OnSwings(p, Opposite(kind), Turned(b), a, TurnedSwings(s)));
      assert Opposite(Opposite(kind)) == kind;
      TurnedTwice(s, b, OnSwings(p, kind, b, a, s));
    }
  }

  lemma TurnedPart(b: seq<Bar>, lo: int, hi: int)
    requires 0 <= lo <= hi <= |b|
    ensures |Turned(b)| == |b| == |Highs(Turned(b))| == |Lows(Turned(b))|
    ensures Highs(Turned(b))[lo..hi] == Negated(Lows(b)[lo..hi]) && Lows(Turned(b))[lo..hi] == Negated(Highs(b)[lo..hi])
    ensures forall i :: lo <= i < hi ==> Turned(b)[i].h == -b[i].l && Turned(b)[i].l == -b[i].h
  {
    TurnedViews(b);
    NegatedPart(Lows(b), lo, hi);
    NegatedPart(Highs(b), lo, hi);
  }

  lemma WindowTurns(b: seq<Bar>, k: nat, i: int)
    requires k <= i < |b| - k
    ensures |Turned(b)| == |b|
    ensures (IsHigh(Turned(b), k, i) <==> IsLow(b, k, i)) && (IsLow(Turned(b), k, i) <==> IsHigh(b, k, i))
  {
    var lo, hi := i - k, i + k + 1;
    TurnedPart(b, lo, hi);
    hide MaxOf, MinOf, Turned, Negated;
    MaxOfNegated(Lows(b)[lo..hi]);
    MaxOfNegated(Highs(b)[lo..hi]);
  }

  lemma {:induction false} SwingsTurn(b: seq<Bar>, k: nat, m: int)
    requires m <= |b| - k || m <= k
    ensures HighsTo(Turned(b), k, m) == TurnedPoints(LowsTo(b, k, m)) && LowsTo(Turned(b), k, m) == TurnedPoints(HighsTo(b, k, m))
    decreases m - k
  {
    hide IsHigh, IsLow;
    if m > k {
      SwingsTurn(b, k, m - 1);
      WindowTurns(b, k, m - 1);
    }
  }

  /** Turning the price axis over turns every detector into its opposite, exactly: the
      same bar, the negated levels, the same strength, and the same errors. */
  lemma MirrorImage(p: Params, kind: Kind, b: seq<Bar>, a: real)
    ensures var there, here := Detect(p, Opposite(kind), Turned(b), a), Detect(p, kind, b, a);
            && (here.Err? ==> there == Err(here.error))
            && (here.Ok? ==> there == Ok(TurnedOption(here.value)))
  {
    hide OnSwings, HighsTo, LowsTo, WellFormed, TurnedOption;
    TurnedViews(b);
    if a > 0.0 && WellFormed(b) {
      var k := p.lookback;
      SwingsArePlaced(b, k, |b| - k);
      SwingsTurn(b, k, |b| - k);
      TurnedPlaced(SwingsOf(b, k), |b|);
      DetectorsTurn(p, kind, b, a, SwingsOf(b, k));
    }
  }

  // ---- no look-ahead ------------------------------------------------------

  lemma WindowPrefix(b: seq<Bar>, c: seq<Bar>, k: nat, i: int)
    requires b <= c && k <= i < |b| - k
    ensures IsHigh(c, k, i) == IsHigh(b, k, i) && IsLow(c, k, i) == IsLow(b, k, i)
  {
    assert Highs(c)[i - k..i + k + 1] == Highs(b)[i - k..i + k + 1] && Lows(c)[i - k..i + k + 1] == Lows(b)[i - k..i + k + 1];
  }

  lemma {:induction false} SameSwings(b: seq<Bar>, c: seq<Bar>, k: nat, m: int)
    requires b <= c && (m <= |b| - k || m <= k)
    ensures HighsTo(c, k, m) == HighsTo(b, k, m) && LowsTo(c, k, m) == LowsTo(b, k, m)
    decreases m - k
  {
    hide IsHigh, IsLow;
    if m > k {
      SameSwings(b, c, k, m - 1);
      WindowPrefix(b, c, k, m - 1);
    }
  }

  /** The swings between two positions. */
  lemma {:induction false} LaterSwings(c: seq<Bar>, k: nat, m: int, m': int)
    requires m <= m' && (m' <= |c| - k || m' <= k)
    ensures HighsTo(c, k, m) <= HighsTo(c, k, m') && LowsTo(c, k, m) <= LowsTo(c, k, m')
    ensures forall i :: |HighsTo(c, k, m)| <= i < |HighsTo(c, k, m')| ==> HighsTo(c, k, m')[i].0 >= m
    ensures forall i :: |LowsTo(c, k, m)| <= i < |LowsTo(c, k, m')| ==> LowsTo(c, k, m')[i].0 >= m
    decreases m' - m
  {
    hide IsHigh, IsLow;
    if m < m' && m' > k { LaterSwings(c, k, m, m' - 1); }
  }

  /** Swings never change once asserted: those of a prefix are a prefix of those of any
      extension, and the new ones come later. */
  lemma SwingsAreStable(b: seq<Bar>, c: seq<Bar>, k: nat)
    requires b <= c
    ensures SwingsOf(b, k).highs <= SwingsOf(c, k).highs && SwingsOf(b, k).lows <= SwingsOf(c, k).lows
    ensures forall i :: |SwingsOf(b, k).lows| <= i < |SwingsOf(c, k).lows| ==> SwingsOf(c, k).lows[i].0 >= |b| - k
    ensures forall i :: |SwingsOf(b, k).highs| <= i < |SwingsOf(c, k).highs| ==> SwingsOf(c, k).highs[i].0 >= |b| - k
  {
    hide HighsTo, LowsTo;
    SameSwings(b, c, k, |b| - k);
    LaterSwings(c, k, |b| - k, |c| - k);
  }

  lemma {:induction false} FirstBelowExtends(cs: seq<real>, ds: seq<real>, j: int, level: real)
    requires cs <= ds && 0 <= j && FirstBelow(cs, j, level).Some?
    ensures FirstBelow(ds, j, level) == FirstBelow(cs, j, level)
    decreases |cs| - j
  {
    if j < |cs| && cs[j] >= level { FirstBelowExtends(cs, ds, j + 1, level); }
  }

  /** A prefix of the bars, with swings that only grew after its end. */
  predicate Grows(b: seq<Bar>, c: seq<Bar>, s: Swings, t: Swings, k: nat) {
    && b <= c && s.highs <= t.highs && s.lows <= t.lows && PlacedSwings(s, |b|) && PlacedSwings(t, |c|)
    && (forall i :: 0 <= i < |s.highs| ==> s.highs[i].0 < |b| - k)
    && (forall i :: |s.lows| <= i < |t.lows| ==> t.lows[i].0 >= |b| - k)
  }

  lemma DoubleTopPersistsAt(p: Params, a: real, b: seq<Bar>, c: seq<Bar>, s: Swings, t: Swings, k: nat, i: nat)
    requires Grows(b, c, s, t, k) && 1 <= i < |s.highs| && a > 0.0
    requires DoubleTopAt(p, a, b, s, i).Some?
    ensures DoubleTopAt(p, a, c, t, i) == DoubleTopAt(p, a, b, s, i)
  {
    var (i1, h1) := s.highs[i - 1];
    var (i2, h2) := s.highs[i];
    assert t.highs[i - 1] == s.highs[i - 1] && t.highs[i] == s.highs[i] && i2 <= |b|;
    hide Grows, PlacedSwings, Slice, Lows, Closes, TopHit;
    ViewsExtend(b, c);
    LowsOnBars(b);
    SliceExtends(Lows(b), Lows(c), i1 + 1, i2);
    TopHitExtends(p, a, h1, h2, Slice(Lows(b), i1 + 1, i2), Closes(b), Closes(c), i2 + 1);
  }

  lemma LowsOnBars(b: seq<Bar>)
    ensures |Lows(b)| == |b|
  {}

  lemma TopHitExtends(p: Params, a: real, h1: real, h2: real, between: seq<real>, cs: seq<real>, ds: seq<real>, from: int)
    requires a > 0.0 && from >= 0 && cs <= ds && TopHit(p, a, h1, h2, between, cs, from).Some?
    ensures TopHit(p, a, h1, h2, between, ds, from) == TopHit(p, a, h1, h2, between, cs, from)
  {
    hide MinOf, FirstBelow, Alike, Strength;
    FirstBelowExtends(cs, ds, from, MinOf(between) - p.eps);
  }

  lemma ViewsExtend(b: seq<Bar>, c: seq<Bar>)
    requires b <= c
    ensures Lows(b) <= Lows(c) && Closes(b) <= Closes(c)
  {}

  lemma SliceExtends(s: seq<real>, t: seq<real>, lo: int, hi: int)
    requires s <= t && hi <= |s|
    ensures Slice(t, lo, hi) == Slice(s, lo, hi)
  {}

  lemma {:induction false} DoubleTopPersists(p: Params, a: real, b: seq<Bar>, c: seq<Bar>, s: Swings, t: Swings, k: nat, i: nat)
    requires Grows(b, c, s, t, k) && 1 <= i && a > 0.0 && DoubleTopFrom(p, a, b, s, i).Some?
    ensures DoubleTopFrom(p, a, c, t, i).Some?
    decreases |s.highs| - i
  {
    hide DoubleTopAt, PlacedSwings;
    if i < |s.highs| {
      if DoubleTopAt(p, a, b, s, i).Some? {
        DoubleTopPersistsAt(p, a, b, c, s, t, k, i);
      } else {
        DoubleTopPersists(p, a, b, c, s, t, k, i + 1);
      }
    }
  }

  lemma {:induction false} WithinStable(ps: Points, qs: Points, lo: int, hi: int)
    requires ps <= qs && forall i :: |ps| <= i < |qs| ==> qs[i].0 >= hi
    ensures Within(qs, lo, hi) == Within(ps, lo, hi)
    decreases |qs|
  {
    if |ps| == |qs| {
      assert ps == qs;
    } else {
      WithinStable(ps, qs[..|qs| - 1], lo, hi);
    }
  }

  lemma NecklineStable(b: seq<Bar>, c: seq<Bar>, s: Swings, t: Swings, k: nat, i1: int, i2: int, i3: int)
    requires Grows(b, c, s, t, k) && 0 <= i1 <= i2 <= i3 < |b| - k
    ensures i3 < |c| && NecklineOf(false, c, t, i1, i2, i3) == NecklineOf(false, b, s, i1, i2, i3)
  {
    hide PlacedSwings, Neckline, Within;
    WithinStable(s.lows, t.lows, i1, i3);
    ViewsExtend(b, c);
    LowsOnBars(b);
    LowsOnBars(c);
    hide Lows;
    assert Lows(c)[i1..i2 + 1] == Lows(b)[i1..i2 + 1] && Lows(c)[i2..i3 + 1] == Lows(b)[i2..i3 + 1];
  }

  lemma HeadHitExtends(p: Params, a: real, v1: real, v2: real, v3: real, neckline: real, cs: seq<real>, ds: seq<real>, from: int)
    requires a > 0.0 && from >= 0 && cs <= ds && HeadHit(p, a, false, v1, v2, v3, neckline, cs, from).Some?
    ensures HeadHit(p, a, false, v1, v2, v3, neckline, ds, from) == HeadHit(p, a, false, v1, v2, v3, neckline, cs, from)
  {
    hide FirstBelow, Alike, Strength;
    FirstBelowExtends(cs, ds, from, neckline - p.eps);
  }

  lemma ShouldersPersistAt(p: Params, a: real, b: seq<Bar>, c: seq<Bar>, s: Swings, t: Swings, k: nat, i: nat)
    requires Grows(b, c, s, t, k) && i + 2 < |s.highs| && a > 0.0
    requires ShouldersAt(p, a, b, s, false, i).Some?
    ensures ShouldersAt(p, a, c, t, false, i) == ShouldersAt(p, a, b, s, false, i)
  {
    hide NecklineOf, HeadHit, Lows, Closes;
    var (i1, v1) := s.highs[i];
    var (i2, v2) := s.highs[i + 1];
    var (i3, v3) := s.highs[i + 2];
    assert t.highs[i] == s.highs[i] && t.highs[i + 1] == s.highs[i + 1] && t.highs[i + 2] == s.highs[i + 2];
    ViewsExtend(b, c);
    NecklineStable(b, c, s, t, k, i1, i2, i3);
    HeadHitExtends(p, a, v1, v2, v3, NecklineOf(false, b, s, i1, i2, i3), Closes(b), Closes(c), i3 + 1);
  }

  lemma {:induction false} ShouldersPersist(p: Params, a: real, b: seq<Bar>, c: seq<Bar>, s: Swings, t: Swings, k: nat, i: nat)
    requires Grows(b, c, s, t, k) && a > 0.0 && ShouldersFrom(p, a, b, s, false, i).Some?
    ensures ShouldersFrom(p, a, c, t, false, i).Some?
    decreases |s.highs| - i
  {
    hide ShouldersAt, PlacedSwings;
    if i + 2 < |s.highs| {
      if ShouldersAt(p, a, b, s, false, i).Some? {
        ShouldersPersistAt(p, a, b, c, s, t, k, i);
      } else {
        ShouldersPersist(p, a, b, c, s, t, k, i + 1);
      }
    }
  }

  lemma TopsPersist(p: Params, kind: Kind, b: seq<Bar>, c: seq<Bar>, a: real)
    requires kind == DOUBLE_TOP || kind == HEAD_AND_SHOULDERS
    requires b <= c && WellFormed(c) && Detect(p, kind, b, a).Ok? && Detect(p, kind, b, a).value.Some?
    ensures Detect(p, kind, c, a).Ok? && Detect(p, kind, c, a).value.Some?
  {
    hide HighsTo, LowsTo, DoubleTopFrom, ShouldersFrom, WellFormed;
    var k := p.lookback;
    var s, t := SwingsOf(b, k), SwingsOf(c, k);
    SwingsArePlaced(b, k, |b| - k);
    SwingsArePlaced(c, k, |c| - k);
    SwingsAreStable(b, c, k);
    assert Grows(b, c, s, t, k);
    hide SwingsOf, Grows;
    if kind == DOUBLE_TOP { DoubleTopPersists(p, a, b, c, s, t, k, 1); } else { ShouldersPersist(p, a, b, c, s, t, k, 0); }
  }

  /** A double top or bottom, or a head and shoulders of either kind, once found is found
      on every extension of the series. */
  lemma HitsPersist(p: Params, kind: Kind, b: seq<Bar>, c: seq<Bar>, a: real)
    requires kind in {DOUBLE_TOP, DOUBLE_BOTTOM, HEAD_AND_SHOULDERS, INVERSE_HEAD_AND_SHOULDERS}
    requires b <= c && WellFormed(c) && Detect(p, kind, b, a).Ok? && Detect(p, kind, b, a).value.Some?
    ensures Detect(p, kind, c, a).Ok? && Detect(p, kind, c, a).value.Some?
  {
    hide Detect, WellFormed;
    if kind == DOUBLE_TOP || kind == HEAD_AND_SHOULDERS {
      TopsPersist(p, kind, b, c, a);
    } else {
      MirrorImage(p, kind, b, a);
      TurnedViews(c);
      assert Turned(b) <= Turned(c);
      TopsPersist(p, Opposite(kind), Turned(b), Turned(c), a);
      MirrorImage(p, kind, c, a);
    }
  }
}
