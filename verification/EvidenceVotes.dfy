/** How far the engines' directions agree, and what the conflict policy makes of it. */
module EvidenceVotes {
  import Shuffle

  datatype Engine = E01 | E02 | E03 | E04 | E05 | E06 | E07 | E08 | E09 | E10 | E11 | E12

  /** The dependency groups: every engine stands in exactly one. */
  const GROUPS: seq<seq<Engine>> := [[E01, E09], [E02, E07], [E03], [E04], [E05, E06, E08], [E10], [E11, E12]]

  newtype Direction = d: int | -1 <= d <= 1

  datatype Vote = Vote(engine: Engine, direction: Direction)

  type Weights = Engine -> real

  ghost predicate NonNegative(w: Weights) { forall e :: w(e) >= 0.0 }

  // ---- one engine ---------------------------------------------------------

  /** An engine's directions, in the order its evidence came. */
  function By(ms: seq<Vote>, e: Engine): (ds: seq<Direction>) {
    if ms == [] then []
    else By(ms[..|ms| - 1], e) + (if ms[|ms| - 1].engine == e then [ms[|ms| - 1].direction] else [])
  }

  /** A share counted for a direction. */
  function Toward(d: Direction, x: real): (r: real) { if d > 0 then x else if d < 0 then -x else 0.0 }

  predicate Opposes(d: Direction, dom: Direction) { (d == 1 && dom == -1) || (d == -1 && dom == 1) }

  /** Directions summed, each for an equal share of the engine's weight. */
  function Pull(ds: seq<Direction>, share: real): (s: real) {
    if ds == [] then 0.0 else Pull(ds[..|ds| - 1], share) + Toward(ds[|ds| - 1], share)
  }

  /** The share of those that oppose a direction. */
  function Against(ds: seq<Direction>, dom: Direction, share: real): (s: real) {
    if ds == [] then 0.0 else Against(ds[..|ds| - 1], dom, share) + (if Opposes(ds[|ds| - 1], dom) then share else 0.0)
  }

  function Share(ms: seq<Vote>, w: Weights, e: Engine): (s: real) {
    if By(ms, e) == [] then 0.0 else w(e) / |By(ms, e)| as real
  }

  /** A whole number of shares. */
  function Shares(n: nat, share: real): (x: real) { n as real * share }

  lemma OneMoreShare(n: nat, share: real)
    ensures Shares(n + 1, share) == Shares(n, share) + share && Shares(0, share) == 0.0
  {}

  /** Twice what opposes, and what pulls the other way, fit into the votes' shares. */
  lemma {:induction false} AgainstBound(ds: seq<Direction>, dom: Direction, share: real)
    requires share >= 0.0 && dom != 0
    ensures 0.0 <= 2.0 * Against(ds, dom, share) <= Shares(|ds|, share) - Toward(dom, Pull(ds, share))
  {
    hide Shares;
    if ds == [] {
      OneMoreShare(0, share);
    } else {
      AgainstBound(ds[..|ds| - 1], dom, share);
      OneMoreShare(|ds| - 1, share);
    }
  }

  // ---- groups -------------------------------------------------------------

  function GroupPull(ms: seq<Vote>, w: Weights, es: seq<Engine>): (s: real) {
    if es == [] then 0.0
    else GroupPull(ms, w, es[..|es| - 1]) + Pull(By(ms, es[|es| - 1]), Share(ms, w, es[|es| - 1]))
  }

  function GroupAgainst(ms: seq<Vote>, w: Weights, es: seq<Engine>, dom: Direction): (s: real) {
    if es == [] then 0.0
    else GroupAgainst(ms, w, es[..|es| - 1], dom) + Against(By(ms, es[|es| - 1]), dom, Share(ms, w, es[|es| - 1]))
  }

  /** The weight of the engines that gave evidence. */
  function GroupWeight(ms: seq<Vote>, w: Weights, es: seq<Engine>): (s: real) {
    if es == [] then 0.0
    else GroupWeight(ms, w, es[..|es| - 1]) + (if By(ms, es[|es| - 1]) == [] then 0.0 else w(es[|es| - 1]))
  }

  /** A pull below this counts as none. */
  const DEAD_BAND := 0.000000000001

  function Dominant(s: real): (d: Direction) { if -DEAD_BAND < s < DEAD_BAND then 0 else if s > 0.0 then 1 else -1 }

  function GroupDisagreement(ms: seq<Vote>, w: Weights, es: seq<Engine>): (s: real) {
    var dom := Dominant(GroupPull(ms, w, es));
    if dom == 0 then 0.0 else GroupAgainst(ms, w, es, dom)
  }

  function Disagreement(ms: seq<Vote>, w: Weights, gs: seq<seq<Engine>>): (s: real) {
    if gs == [] then 0.0 else Disagreement(ms, w, gs[..|gs| - 1]) + GroupDisagreement(ms, w, gs[|gs| - 1])
  }

  function Total(ms: seq<Vote>, w: Weights, gs: seq<seq<Engine>>): (s: real) {
    if gs == [] then 0.0 else Total(ms, w, gs[..|gs| - 1]) + GroupWeight(ms, w, gs[|gs| - 1])
  }

  function Agreement(ms: seq<Vote>, w: Weights): (r: real) {
    var total := Total(ms, w, GROUPS);
    if ms == [] || total <= 0.0 then 0.0
    else
      var share := Disagreement(ms, w, GROUPS) / total;
      var normalized := if share < 1.0 then share else 1.0;
      if 1.0 - normalized > 0.0 then 1.0 - normalized else 0.0
  }

  lemma SharesMakeWeight(ms: seq<Vote>, w: Weights, e: Engine)
    ensures Shares(|By(ms, e)|, Share(ms, w, e)) == if By(ms, e) == [] then 0.0 else w(e)
  {
    var n := |By(ms, e)|;
    hide By;
    if n > 0 { WholeShares(n, w(e)); } else { OneMoreShare(0, 0.0); }
  }

  lemma WholeShares(n: nat, x: real)
    requires n > 0
    ensures Shares(n, x / n as real) == x
  {
    Whole(n as real, x);
  }

  lemma Whole(n: real, x: real)
    requires n > 0.0
    ensures n * (x / n) == x
  {}

  lemma {:induction false} GroupBound(ms: seq<Vote>, w: Weights, es: seq<Engine>, dom: Direction)
    requires NonNegative(w) && dom != 0
    ensures 0.0 <= 2.0 * GroupAgainst(ms, w, es, dom) <= GroupWeight(ms, w, es) - Toward(dom, GroupPull(ms, w, es))
  {
    if es != [] {
      var e := es[|es| - 1];
      GroupBound(ms, w, es[..|es| - 1], dom);
      ShareSign(ms, w, e);
      AgainstBound(By(ms, e), dom, Share(ms, w, e));
      SharesMakeWeight(ms, w, e);
      hide Share, By, Pull, Against, Shares;
    }
  }

  lemma ShareSign(ms: seq<Vote>, w: Weights, e: Engine)
    requires NonNegative(w)
    ensures Share(ms, w, e) >= 0.0
  {
    assert w(e) >= 0.0;
  }

  /** What opposes a group's dominant direction, twice over, leaves at least the dead band
      of the group's weight. */
  lemma GroupDisagreementBound(ms: seq<Vote>, w: Weights, es: seq<Engine>)
    requires NonNegative(w)
    ensures var d := GroupDisagreement(ms, w, es); 0.0 <= 2.0 * d <= GroupWeight(ms, w, es) && (d > 0.0 ==> 2.0 * d <= GroupWeight(ms, w, es) - DEAD_BAND)
  {
    GroupBound(ms, w, es, 1);
    GroupBound(ms, w, es, -1);
  }

  lemma {:induction false} DisagreementBound(ms: seq<Vote>, w: Weights, gs: seq<seq<Engine>>)
    requires NonNegative(w)
    ensures var d, t := Disagreement(ms, w, gs), Total(ms, w, gs); 0.0 <= 2.0 * d <= t && (d > 0.0 ==> 2.0 * d <= t - DEAD_BAND)
  {
    hide GroupDisagreement, GroupWeight, NonNegative;
    if gs != [] {
      DisagreementBound(ms, w, gs[..|gs| - 1]);
      GroupDisagreementBound(ms, w, gs[|gs| - 1]);
    }
  }

  /** Evidence with any weight at all agrees by more than one half, and neither clamp
      ever acts. */
  lemma AgreementAboveHalf(ms: seq<Vote>, w: Weights)
    requires NonNegative(w) && ms != [] && Total(ms, w, GROUPS) > 0.0
    ensures 0.5 < Agreement(ms, w) <= 1.0
    ensures Agreement(ms, w) == 1.0 - Disagreement(ms, w, GROUPS) / Total(ms, w, GROUPS)
  {
    hide Disagreement, Total;
    DisagreementBound(ms, w, GROUPS);
    HalfOf(Disagreement(ms, w, GROUPS), Total(ms, w, GROUPS));
  }

  function Times(a: real, b: real): (x: real) { a * b }

  lemma TimesSign(a: real, t: real)
    requires t > 0.0
    ensures (a >= 0.0 ==> Times(a, t) >= 0.0) && (a < 0.0 ==> Times(a, t) < 0.0)
  {}

  lemma TimesLess(a: real, b: real, t: real)
    ensures Times(a - b, t) == Times(a, t) - Times(b, t)
  {}

  lemma Quotient(d: real, t: real)
    requires t > 0.0
    ensures Times(d / t, t) == d && Times(0.5, t) == t / 2.0
  {}

  lemma HalfOf(d: real, t: real)
    requires t > 0.0 && 0.0 <= 2.0 * d < t
    ensures 0.0 <= d / t < 0.5
  {
    Quotient(d, t);
    hide Times;
    var q := d / t;
    TimesSign(q, t);
    TimesSign(q - 0.5, t);
    TimesLess(q, 0.5, t);
  }

  // ---- the floor ----------------------------------------------------------

  /** The least agreement short of one half that evidence of a total weight can have. */
  function Floor(total: real): (x: real)
    requires total > 0.0
  {
    0.5 + DEAD_BAND / total / 2.0
  }

  function Sum(w: Weights, es: seq<Engine>): (s: real) { if es == [] then 0.0 else Sum(w, es[..|es| - 1]) + w(es[|es| - 1]) }

  function SumAll(w: Weights, gs: seq<seq<Engine>>): (s: real) {
    if gs == [] then 0.0 else SumAll(w, gs[..|gs| - 1]) + Sum(w, gs[|gs| - 1])
  }

  lemma {:induction false} GroupWeightAtMost(ms: seq<Vote>, w: Weights, es: seq<Engine>)
    requires NonNegative(w)
    ensures GroupWeight(ms, w, es) <= Sum(w, es)
  {
    if es != [] {
      GroupWeightAtMost(ms, w, es[..|es| - 1]);
      assert w(es[|es| - 1]) >= 0.0;
    }
  }

  lemma {:induction false} TotalAtMost(ms: seq<Vote>, w: Weights, gs: seq<seq<Engine>>)
    requires NonNegative(w)
    ensures Total(ms, w, gs) <= SumAll(w, gs)
  {
    hide GroupWeight, Sum, NonNegative;
    if gs != [] {
      TotalAtMost(ms, w, gs[..|gs| - 1]);
      GroupWeightAtMost(ms, w, gs[|gs| - 1]);
    }
  }

  /** Evidence either agrees completely or by the floor at least; less weight than the dead
      band always agrees completely. Under normalized weights the floor is half the dead
      band above one half or more, so agreement never comes arbitrarily near it. */
  lemma AgreementFloor(ms: seq<Vote>, w: Weights)
    requires NonNegative(w) && ms != [] && Total(ms, w, GROUPS) > 0.0
    ensures var a, t := Agreement(ms, w), Total(ms, w, GROUPS);
            && (a == 1.0 || a >= Floor(t)) && (t < DEAD_BAND ==> a == 1.0)
            && (w(E01) + w(E02) + w(E03) + w(E04) + w(E05) + w(E06) + w(E07) + w(E08) + w(E09) + w(E10) + w(E11) + w(E12) == 1.0 ==>
                  a >= 0.5000000000005)
  {
    SumOfAll(w);
    hide Disagreement, Total, Agreement, SumAll;
    var d, t := Disagreement(ms, w, GROUPS), Total(ms, w, GROUPS);
    DisagreementBound(ms, w, GROUPS);
    AgreementAboveHalf(ms, w);
    if d > 0.0 { FloorOf(d, t); }
    TotalAtMost(ms, w, GROUPS);
    if t <= 1.0 { FloorOfOne(t); }
  }

  lemma SumOfAll(w: Weights)
    ensures SumAll(w, GROUPS) == w(E01) + w(E02) + w(E03) + w(E04) + w(E05) + w(E06) + w(E07) + w(E08) + w(E09) + w(E10) + w(E11) + w(E12)
  {
    hide SumAll, Sum;
    SumUpTo(w, 7);
    SumUpTo(w, 6);
    SumUpTo(w, 5);
    SumUpTo(w, 4);
    SumUpTo(w, 3);
    SumUpTo(w, 2);
    SumUpTo(w, 1);
    assert GROUPS[..7] == GROUPS && GROUPS[..0] == [];
    SumThree(w, E01, E09, E01);
    SumThree(w, E02, E07, E02);
    SumThree(w, E03, E04, E10);
    SumThree(w, E10, E12, E11);
    SumThree(w, E11, E12, E11);
    SumThree(w, E05, E06, E08);
  }

  lemma SumUpTo(w: Weights, n: nat)
    requires 0 < n <= |GROUPS|
    ensures SumAll(w, GROUPS[..n]) == SumAll(w, GROUPS[..n - 1]) + Sum(w, GROUPS[n - 1]) && SumAll(w, []) == 0.0
  {
    hide Sum;
    assert GROUPS[..n][..n - 1] == GROUPS[..n - 1];
  }

  lemma SumThree(w: Weights, a: Engine, b: Engine, c: Engine)
    ensures Sum(w, [a]) == w(a) && Sum(w, [b]) == w(b) && Sum(w, [c]) == w(c) && Sum(w, [a, b]) == w(a) + w(b)
    ensures Sum(w, [a, b, c]) == w(a) + w(b) + w(c)
  {
    assert [a][..0] == [] && [b][..0] == [] && [c][..0] == [] && [a, b][..1] == [a] && [a, b, c][..2] == [a, b];
  }

  lemma FloorOf(d: real, t: real)
    requires t > 0.0 && 0.0 < 2.0 * d <= t - DEAD_BAND
    ensures 1.0 - d / t >= Floor(t)
  {
    Quotient(d, t);
    Quotient(DEAD_BAND, t);
    hide Times;
    var q, r := d / t, DEAD_BAND / t;
    HalfTimes(r, t);
    TimesSign(0.5 - q - r / 2.0, t);
    TimesLess(0.5 - q, r / 2.0, t);
    TimesLess(0.5, q, t);
  }

  lemma HalfTimes(r: real, t: real)
    ensures Times(r / 2.0, t) == Times(r, t) / 2.0
  {}

  lemma FloorOfOne(t: real)
    requires 0.0 < t <= 1.0
    ensures Floor(t) >= 0.5 + DEAD_BAND / 2.0
  {
    Quotient(DEAD_BAND, t);
    assert DEAD_BAND / t >= DEAD_BAND;
  }

  // ---- the shipped weights ------------------------------------------------

  function Shipped(e: Engine): (x: real) {
    match e
    case E01 => 0.16 case E02 => 0.12 case E03 => 0.10 case E04 => 0.08 case E05 => 0.12 case E06 => 0.10
    case E07 => 0.06 case E08 => 0.06 case E09 => 0.08 case E10 => 0.06 case E11 => 0.04 case E12 => 0.02
  }

  lemma {:induction false} GroupWeighsIn(ms: seq<Vote>, w: Weights, es: seq<Engine>, e: Engine)
    requires NonNegative(w) && By(ms, e) != []
    ensures GroupWeight(ms, w, es) >= 0.0 && (e in es ==> GroupWeight(ms, w, es) >= w(e))
  {
    hide By;
    if es != [] {
      GroupWeighsIn(ms, w, es[..|es| - 1], e);
      assert w(es[|es| - 1]) >= 0.0;
    }
  }

  lemma {:induction false} WeighsIn(ms: seq<Vote>, w: Weights, gs: seq<seq<Engine>>, k: nat, e: Engine)
    requires NonNegative(w) && By(ms, e) != []
    ensures Total(ms, w, gs) >= 0.0 && (k < |gs| && e in gs[k] ==> Total(ms, w, gs) >= w(e))
  {
    hide By, GroupWeight, NonNegative;
    if gs != [] {
      WeighsIn(ms, w, gs[..|gs| - 1], k, e);
      GroupWeighsIn(ms, w, gs[|gs| - 1], e);
    }
  }

  function GroupIndex(e: Engine): (k: nat)
    ensures k < |GROUPS| && e in GROUPS[k]
  {
    match e
    case E01 => 0 case E09 => 0 case E02 => 1 case E07 => 1 case E03 => 2 case E04 => 3 case E05 => 4 case E06 => 4
    case E08 => 4 case E10 => 5 case E11 => 6 case E12 => 6
  }

  /** Under the shipped weights any evidence weighs something. */
  lemma ShippedWeighs(ms: seq<Vote>)
    requires ms != []
    ensures NonNegative(Shipped) && Total(ms, Shipped, GROUPS) > 0.0
  {
    var e := ms[|ms| - 1].engine;
    LastSpeaks(ms);
    assert NonNegative(Shipped);
    WeighsIn(ms, Shipped, GROUPS, GroupIndex(e), e);
  }

  /** The shipped weights add up to one, so their evidence keeps clear of one half. */
  lemma ShippedFloor(ms: seq<Vote>)
    requires ms != []
    ensures SumAll(Shipped, GROUPS) == 1.0 && 0.5000000000005 <= Agreement(ms, Shipped) <= 1.0
  {
    SumOfAll(Shipped);
    ShippedWeighs(ms);
    hide Agreement, Total, SumAll, Disagreement;
    AgreementFloor(ms, Shipped);
    AgreementAboveHalf(ms, Shipped);
  }

  // ---- the floor is reached ----------------------------------------------

  predicate Only(ms: seq<Vote>, e: Engine) { forall i :: 0 <= i < |ms| ==> ms[i].engine == e }

  lemma {:induction false} OnlyBy(ms: seq<Vote>, e: Engine, x: Engine)
    requires Only(ms, e)
    ensures |By(ms, x)| == (if x == e then |ms| else 0)
    ensures forall i :: 0 <= i < |By(ms, x)| ==> By(ms, x)[i] == ms[i].direction
  {
    if ms != [] { OnlyBy(ms[..|ms| - 1], e, x); }
  }

  lemma {:induction false} OthersSilent(ms: seq<Vote>, w: Weights, e: Engine, es: seq<Engine>)
    requires Only(ms, e) && e !in es
    ensures GroupWeight(ms, w, es) == GroupPull(ms, w, es) == GroupDisagreement(ms, w, es) == 0.0
  {
    if es != [] {
      OthersSilent(ms, w, e, es[..|es| - 1]);
      OnlyBy(ms, e, es[|es| - 1]);
    }
  }

  lemma {:induction false} OnlyGroup(ms: seq<Vote>, w: Weights, e: Engine, gs: seq<seq<Engine>>, k: nat)
    requires Only(ms, e) && k <= |gs|
    requires forall i :: k <= i < |gs| ==> e !in gs[i]
    ensures Total(ms, w, gs) == Total(ms, w, gs[..k]) && Disagreement(ms, w, gs) == Disagreement(ms, w, gs[..k])
    decreases |gs|
  {
    hide GroupWeight, GroupDisagreement;
    if k == |gs| {
      assert gs[..k] == gs;
    } else {
      var front := gs[..|gs| - 1];
      OnlyGroup(ms, w, e, front, k);
      OthersSilent(ms, w, e, gs[|gs| - 1]);
      assert front[..k] == gs[..k];
    }
  }

  /** Evidence of E03 alone: its group is the only one that counts. */
  lemma OnlyE03(ms: seq<Vote>, w: Weights)
    requires Only(ms, E03) && ms != []
    ensures Total(ms, w, GROUPS) == w(E03) && Disagreement(ms, w, GROUPS) == GroupDisagreement(ms, w, [E03])
  {
    hide GroupDisagreement, GroupPull;
    OnlyGroup(ms, w, E03, GROUPS, 3);
    OnlyGroup(ms, w, E03, GROUPS[..2], 0);
    OnlyBy(ms, E03, E03);
    var three := GROUPS[..3];
    assert three[..2] == GROUPS[..2] && GROUPS[..2][..0] == [] && three[2] == [E03];
    assert Total(ms, w, GROUPS[..2]) == 0.0 && Disagreement(ms, w, GROUPS[..2]) == 0.0;
    assert Total(ms, w, three) == GroupWeight(ms, w, [E03]) && Disagreement(ms, w, three) == GroupDisagreement(ms, w, [E03]);
    assert [E03][..0] == [] && GroupWeight(ms, w, [E03]) == w(E03);
  }

  lemma {:induction false} CountedPull(ds: seq<Direction>, p: nat, share: real)
    requires p <= |ds| && forall i :: 0 <= i < |ds| ==> ds[i] == if i < p then 1 else -1
    ensures Pull(ds, share) == Shares(p, share) - Shares(|ds| - p, share) && Against(ds, 1, share) == Shares(|ds| - p, share)
    decreases |ds|
  {
    hide Shares;
    if ds == [] {
      OneMoreShare(0, share);
    } else {
      var n := |ds| - 1;
      if p <= n { CountedPull(ds[..n], p, share); OneMoreShare(n - p, share); }
      else { CountedPull(ds[..n], n, share); OneMoreShare(n, share); OneMoreShare(0, share); }
    }
  }

  lemma OneSided(ms: seq<Vote>, n: nat, w: Weights)
    requires |ms| == 2 * n + 1 && forall i :: 0 <= i < |ms| ==> ms[i] == Vote(E03, if i <= n then 1 else -1)
    requires w(E03) > 0.0
    ensures var share := w(E03) / (2 * n + 1) as real;
            share > 0.0 && GroupDisagreement(ms, w, [E03]) == if share >= DEAD_BAND then Shares(n, share) else 0.0
  {
    hide Shares;
    OnlyBy(ms, E03, E03);
    var ds, share := By(ms, E03), w(E03) / (2 * n + 1) as real;
    assert Share(ms, w, E03) == share;
    CountedPull(ds, n + 1, share);
    OneMoreShare(n, share);
    hide By, Share;
    OneGroup(ms, w, 1);
  }

  lemma OneGroup(ms: seq<Vote>, w: Weights, dom: Direction)
    ensures GroupPull(ms, w, [E03]) == Pull(By(ms, E03), Share(ms, w, E03))
    ensures GroupAgainst(ms, w, [E03], dom) == Against(By(ms, E03), dom, Share(ms, w, E03))
  {
    hide By, Share, Pull, Against;
    assert |[E03][..0]| == 0;
  }

  /** One engine that votes n+1 against n. */
  function SplitVote(n: nat): (ms: seq<Vote>) { seq(n + 1, _ => Vote(E03, 1)) + seq(n, _ => Vote(E03, -1)) }

  /** Its votes agree by (n+1)/(2n+1), until the share of one vote falls below the dead
      band and they agree completely. */
  lemma SplitVoteAgrees(n: nat, w: Weights)
    requires w(E03) > 0.0
    ensures var N := (2 * n + 1) as real;
            Agreement(SplitVote(n), w) == if w(E03) / N >= 0.000000000001 then (n + 1) as real / N else 1.0
    ensures Total(SplitVote(n), w, GROUPS) == w(E03)
  {
    hide Shares, Total, Disagreement, GroupDisagreement;
    var ms, N := SplitVote(n), (2 * n + 1) as real;
    OnlyE03(ms, w);
    OneSided(ms, n, w);
    if w(E03) / N >= DEAD_BAND { PartOfWhole(n, w(E03)); }
  }

  lemma PartOfWhole(n: nat, x: real)
    requires x > 0.0
    ensures var N := (2 * n + 1) as real;
            0.0 <= Shares(n, x / N) / x < 1.0 && 1.0 - Shares(n, x / N) / x == (n + 1) as real / N
  {
    var N := (2 * n + 1) as real;
    SameRatio(n, x, N);
    hide Shares;
    Parts(n as real, (n + 1) as real, N);
  }

  lemma SameRatio(n: nat, x: real, N: real)
    requires x > 0.0 && N > 0.0
    ensures Shares(n, x / N) / x == n as real / N
  {
    var a, b := Shares(n, x / N), n as real;
    Quotient(a, x);
    assert a == (b / N) * x;
    hide Shares, Times;
    Cancel(a / x, b / N, x);
  }

  lemma Cancel(a: real, b: real, x: real)
    requires x > 0.0 && Times(a, x) == b * x
    ensures a == b
  {
    assert (a - b) * x == 0.0;
  }

  lemma Parts(a: real, b: real, n: real)
    requires a >= 0.0 && b > 0.0 && a + b == n
    ensures 1.0 - a / n == b / n && 0.0 <= a / n < 1.0
  {
    Quotient(a, n);
    Quotient(b, n);
    hide Times;
    var p, q := a / n, b / n;
    TimesLess(p, -q, n);
    TimesLess(0.0, q, n);
    TimesOne(n);
    TimesSign(p, n);
    TimesSign(-q, n);
    TimesLess(p + q, 1.0, n);
    TimesSign(p + q - 1.0, n);
    TimesSign(1.0 - (p + q), n);
    TimesLess(1.0, p + q, n);
  }

  lemma TimesOne(n: real)
    ensures Times(1.0, n) == n && Times(0.0, n) == 0.0
  {}

  /** The floor is reached: one vote's share is the dead band itself. */
  lemma FloorIsReached(n: nat, w: Weights)
    requires w(E03) == Shares(2 * n + 1, DEAD_BAND)
    ensures Total(SplitVote(n), w, GROUPS) == w(E03) > 0.0
    ensures Agreement(SplitVote(n), w) == Floor(w(E03))
  {
    hide Agreement, Total, SplitVote;
    var N := (2 * n + 1) as real;
    assert w(E03) > 0.0 && w(E03) / N == DEAD_BAND;
    SplitVoteAgrees(n, w);
    FloorIsPart(n);
  }

  lemma FloorIsPart(n: nat)
    ensures Floor(Shares(2 * n + 1, DEAD_BAND)) == (n + 1) as real / (2 * n + 1) as real
  {
    var N := (2 * n + 1) as real;
    assert DEAD_BAND / (N * DEAD_BAND) == 1.0 / N;
    assert 0.5 + 1.0 / N / 2.0 == (n + 1) as real / N;
  }

  // ---- who shares a group -------------------------------------------------

  /** The engines that depend on one another. */
  predicate Mates(a: Engine, b: Engine) { a == b || Paired(a, b) || Paired(b, a) }

  predicate Paired(a: Engine, b: Engine) {
    || (a == E01 && b == E09) || (a == E02 && b == E07) || (a == E11 && b == E12)
    || (a == E05 && b == E06) || (a == E05 && b == E08) || (a == E06 && b == E08)
  }

  lemma GroupsAre(e: Engine, k: nat)
    requires k < |GROUPS|
    ensures e in GROUPS[k] <==> k == GroupIndex(e)
    ensures forall i, j :: 0 <= i < j < |GROUPS[k]| ==> GROUPS[k][i] != GROUPS[k][j]
  {}

  lemma MatesShareAGroup(a: Engine, b: Engine)
    ensures Mates(a, b) <==> GroupIndex(a) == GroupIndex(b)
  {}

  /** One engine up, another down. */
  function Duel(a: Engine, b: Engine): (ms: seq<Vote>) { [Vote(a, 1), Vote(b, -1)] }

  lemma DuelBy(a: Engine, b: Engine, w: Weights, e: Engine)
    requires a != b
    ensures var ds, share := By(Duel(a, b), e), Share(Duel(a, b), w, e);
            && Pull(ds, share) == (if e == a then w(a) else if e == b then -w(b) else 0.0)
            && Against(ds, 1, share) == (if e == b then w(b) else 0.0) && Against(ds, -1, share) == (if e == a then w(a) else 0.0)
            && (ds == [] <==> e != a && e != b)
  {
    hide By, Duel, Pull, Against, Share, Toward, Opposes;
    if e == a {
      DuelVoice(a, b, w, a, 1);
    } else if e == b {
      DuelVoice(a, b, w, b, -1);
    } else {
      DuelVotes(a, b, e);
      NoVote(Share(Duel(a, b), w, e));
    }
  }

  lemma DuelVoice(a: Engine, b: Engine, w: Weights, e: Engine, d: Direction)
    requires a != b && ((e == a && d == 1) || (e == b && d == -1))
    ensures var ds, share := By(Duel(a, b), e), Share(Duel(a, b), w, e);
            && ds != [] && Pull(ds, share) == (if d == 1 then w(e) else -w(e))
            && Against(ds, 1, share) == (if d == -1 then w(e) else 0.0) && Against(ds, -1, share) == (if d == 1 then w(e) else 0.0)
  {
    hide By, Duel, Pull, Against, Share;
    DuelVotes(a, b, e);
    WholeShare(Duel(a, b), w, e);
    OneVote(d, w(e));
  }

  lemma WholeShare(ms: seq<Vote>, w: Weights, e: Engine)
    requires |By(ms, e)| == 1
    ensures Share(ms, w, e) == w(e)
  {
    hide By;
    assert |By(ms, e)| as real == 1.0;
  }

  lemma DuelVotes(a: Engine, b: Engine, e: Engine)
    requires a != b
    ensures By(Duel(a, b), e) == if e == a then [1] else if e == b then [-1] else []
  {
    var ms := Duel(a, b);
    assert ms == [Vote(a, 1)] + [Vote(b, -1)];
    ByConcat([Vote(a, 1)], [Vote(b, -1)], e);
    ByOne(Vote(a, 1), e);
    ByOne(Vote(b, -1), e);
  }

  lemma ByOne(v: Vote, e: Engine)
    ensures By([v], e) == if v.engine == e then [v.direction] else []
  {
    assert [v][..0] == [];
  }

  lemma NoVote(share: real)
    ensures Pull([], share) == 0.0 && Against([], 1, share) == 0.0 && Against([], -1, share) == 0.0
  {}

  lemma OneVote(d: Direction, x: real)
    ensures Pull([d], x) == Toward(d, x)
    ensures Against([d], 1, x) == (if d == -1 then x else 0.0) && Against([d], -1, x) == (if d == 1 then x else 0.0)
  {
    assert [d][..0] == [];
  }

  function Voice(a: Engine, es: seq<Engine>, x: real): (y: real) { if a in es then x else 0.0 }

  lemma {:induction false} DuelInGroup(a: Engine, b: Engine, w: Weights, es: seq<Engine>)
    requires a != b && forall i, j :: 0 <= i < j < |es| ==> es[i] != es[j]
    ensures var ms := Duel(a, b);
            && GroupPull(ms, w, es) == Voice(a, es, w(a)) - Voice(b, es, w(b)) && GroupWeight(ms, w, es) == Voice(a, es, w(a)) + Voice(b, es, w(b))
            && GroupAgainst(ms, w, es, 1) == Voice(b, es, w(b)) && GroupAgainst(ms, w, es, -1) == Voice(a, es, w(a))
  {
    hide By, Pull, Against, Share, Duel;
    if es != [] {
      var front, e := es[..|es| - 1], es[|es| - 1];
      DuelInGroup(a, b, w, front);
      DuelBy(a, b, w, e);
      assert es == front + [e] && e !in front;
    }
  }

  /** What the lighter of two opposed mates weighs, beyond the dead band. */
  function Lighter(x: real, y: real): (z: real) {
    if -0.000000000001 < x - y < 0.000000000001 then 0.0 else if x < y then x else y
  }

  lemma {:induction false} DuelSums(a: Engine, b: Engine, w: Weights, n: nat)
    requires a != b && n <= |GROUPS| && w(a) >= 0.0 && w(b) >= 0.0
    ensures var ms, gs := Duel(a, b), GROUPS[..n];
            && Total(ms, w, gs) == (if GroupIndex(a) < n then w(a) else 0.0) + (if GroupIndex(b) < n then w(b) else 0.0)
            && Disagreement(ms, w, gs) == if Mates(a, b) && GroupIndex(a) < n then Lighter(w(a), w(b)) else 0.0
  {
    hide GroupWeight, GroupPull, GroupAgainst, Duel, Mates, GroupIndex;
    if n > 0 {
      var es := GROUPS[n - 1];
      DuelSums(a, b, w, n - 1);
      assert GROUPS[..n][..n - 1] == GROUPS[..n - 1] && GROUPS[..n][n - 1] == es;
      GroupsAre(a, n - 1);
      GroupsAre(b, n - 1);
      MatesShareAGroup(a, b);
      DuelInGroup(a, b, w, es);
    } else {
      assert GROUPS[..0] == [];
    }
  }

  /** Two opposed engines disagree exactly when they are mates, by the lighter one's part of
      their weight; two that are not agree completely. */
  lemma OpposedEnginesAgree(a: Engine, b: Engine, w: Weights)
    requires a != b && w(a) >= 0.0 && w(b) >= 0.0 && w(a) + w(b) > 0.0
    ensures Agreement(Duel(a, b), w) == if Mates(a, b) then 1.0 - Lighter(w(a), w(b)) / (w(a) + w(b)) else 1.0
  {
    hide Total, Disagreement, Mates, GroupIndex;
    assert GROUPS[..|GROUPS|] == GROUPS;
    DuelSums(a, b, w, |GROUPS|);
    var t, d := w(a) + w(b), Lighter(w(a), w(b));
    HalfOf(d, t);
    HalfOf(0.0, t);
    assert 0.0 / t == 0.0;
  }

  // ---- the order of the votes ---------------------------------------------

  lemma {:induction false} ByConcat(a: seq<Vote>, b: seq<Vote>, e: Engine)
    ensures By(a + b, e) == By(a, e) + By(b, e)
  {
    if b == [] {
      assert a + b == a;
    } else {
      ByConcat(a, b[..|b| - 1], e);
      assert (a + b)[..|a + b| - 1] == a + b[..|b| - 1];
    }
  }

  lemma {:induction false} ByReordered(a: seq<Vote>, b: seq<Vote>, e: Engine)
    requires multiset(a) == multiset(b)
    ensures multiset(By(a, e)) == multiset(By(b, e))
    decreases |a|
  {
    hide By;
    Shuffle.SameLength(a, b);
    if a != [] {
      var m, front := a[|a| - 1], a[..|a| - 1];
      var k := Shuffle.Matched(a, b);
      var x, y := b[..k], b[k + 1..];
      ByReordered(front, x + y, e);
      Shuffle.Snoc([], a);
      ByConcat(front, [m], e);
      ByConcat(x + [m], y, e);
      ByConcat(x, [m], e);
      ByConcat(x, y, e);
      assert front + [m] == a;
      Shuffle.Regroup(By(front, e), By(x, e), By([m], e), By(y, e));
    }
  }

  lemma {:induction false} PullConcat(a: seq<Direction>, b: seq<Direction>, dom: Direction, share: real)
    ensures Pull(a + b, share) == Pull(a, share) + Pull(b, share)
    ensures Against(a + b, dom, share) == Against(a, dom, share) + Against(b, dom, share)
  {
    if b == [] {
      assert a + b == a;
    } else {
      PullConcat(a, b[..|b| - 1], dom, share);
      assert (a + b)[..|a + b| - 1] == a + b[..|b| - 1];
    }
  }

  lemma {:induction false} PullReordered(a: seq<Direction>, b: seq<Direction>, dom: Direction, share: real)
    requires multiset(a) == multiset(b)
    ensures Pull(a, share) == Pull(b, share) && Against(a, dom, share) == Against(b, dom, share)
    decreases |a|
  {
    Shuffle.SameLength(a, b);
    if a != [] {
      var d, front := a[|a| - 1], a[..|a| - 1];
      var k := Shuffle.Matched(a, b);
      var x, y := b[..k], b[k + 1..];
      PullReordered(front, x + y, dom, share);
      Shuffle.Snoc([], a);
      hide Pull, Against;
      PullConcat(front, [d], dom, share);
      PullConcat(x + [d], y, dom, share);
      PullConcat(x, [d], dom, share);
      PullConcat(x, y, dom, share);
      assert front + [d] == a;
    }
  }

  lemma {:induction false} GroupReordered(a: seq<Vote>, b: seq<Vote>, w: Weights, es: seq<Engine>, dom: Direction)
    requires multiset(a) == multiset(b)
    ensures GroupPull(a, w, es) == GroupPull(b, w, es) && GroupAgainst(a, w, es, dom) == GroupAgainst(b, w, es, dom)
    ensures GroupWeight(a, w, es) == GroupWeight(b, w, es)
  {
    hide By, Pull, Against;
    if es != [] {
      var e := es[|es| - 1];
      GroupReordered(a, b, w, es[..|es| - 1], dom);
      ByReordered(a, b, e);
      Shuffle.SameLength(By(a, e), By(b, e));
      PullReordered(By(a, e), By(b, e), dom, Share(a, w, e));
    }
  }

  lemma {:induction false} SumsReordered(a: seq<Vote>, b: seq<Vote>, w: Weights, gs: seq<seq<Engine>>)
    requires multiset(a) == multiset(b)
    ensures Disagreement(a, w, gs) == Disagreement(b, w, gs) && Total(a, w, gs) == Total(b, w, gs)
  {
    hide GroupPull, GroupAgainst, GroupWeight;
    if gs != [] {
      var es := gs[|gs| - 1];
      SumsReordered(a, b, w, gs[..|gs| - 1]);
      GroupReordered(a, b, w, es, Dominant(GroupPull(a, w, es)));
    }
  }

  /** The order in which the votes came does not matter. */
  lemma VoteOrderDoesNotMatter(a: seq<Vote>, b: seq<Vote>, w: Weights)
    requires multiset(a) == multiset(b)
    ensures Agreement(a, w) == Agreement(b, w)
  {
    hide Disagreement, Total;
    Shuffle.SameLength(a, b);
    SumsReordered(a, b, w, GROUPS);
  }

  // ---- turning every direction round --------------------------------------

  function Flipped(ms: seq<Vote>): (r: seq<Vote>) { seq(|ms|, i requires 0 <= i < |ms| => Vote(ms[i].engine, -ms[i].direction)) }

  function Negated(ds: seq<Direction>): (r: seq<Direction>) { seq(|ds|, i requires 0 <= i < |ds| => -ds[i]) }

  lemma {:induction false} FlippedBy(ms: seq<Vote>, e: Engine)
    ensures By(Flipped(ms), e) == Negated(By(ms, e))
  {
    if ms != [] {
      FlippedBy(ms[..|ms| - 1], e);
      assert Flipped(ms)[..|ms| - 1] == Flipped(ms[..|ms| - 1]);
    }
  }

  lemma {:induction false} NegatedPull(ds: seq<Direction>, dom: Direction, share: real)
    ensures Pull(Negated(ds), share) == -Pull(ds, share) && Against(Negated(ds), -dom, share) == Against(ds, dom, share)
  {
    if ds != [] {
      NegatedPull(ds[..|ds| - 1], dom, share);
      assert Negated(ds)[..|ds| - 1] == Negated(ds[..|ds| - 1]);
    }
  }

  lemma {:induction false} FlippedGroup(ms: seq<Vote>, w: Weights, es: seq<Engine>, dom: Direction)
    ensures GroupPull(Flipped(ms), w, es) == -GroupPull(ms, w, es)
    ensures GroupAgainst(Flipped(ms), w, es, -dom) == GroupAgainst(ms, w, es, dom)
    ensures GroupWeight(Flipped(ms), w, es) == GroupWeight(ms, w, es)
  {
    hide By, Pull, Against, Flipped;
    if es != [] {
      var e := es[|es| - 1];
      FlippedGroup(ms, w, es[..|es| - 1], dom);
      FlippedBy(ms, e);
      NegatedPull(By(ms, e), dom, Share(ms, w, e));
    }
  }

  lemma {:induction false} FlippedSums(ms: seq<Vote>, w: Weights, gs: seq<seq<Engine>>)
    ensures Disagreement(Flipped(ms), w, gs) == Disagreement(ms, w, gs) && Total(Flipped(ms), w, gs) == Total(ms, w, gs)
  {
    hide GroupPull, GroupAgainst, GroupWeight, Flipped;
    if gs != [] {
      var es := gs[|gs| - 1];
      FlippedSums(ms, w, gs[..|gs| - 1]);
      FlippedGroup(ms, w, es, Dominant(GroupPull(ms, w, es)));
    }
  }

  /** Agreement does not depend on which way is up. */
  lemma FlipKeepsAgreement(ms: seq<Vote>, w: Weights)
    ensures Agreement(Flipped(ms), w) == Agreement(ms, w)
  {
    hide Disagreement, Total;
    FlippedSums(ms, w, GROUPS);
  }

  // ---- the computation ----------------------------------------------------

  /** Votes gathered by engine, then one pass over the groups. */
  method EvidenceAgreement(ms: seq<Vote>, w: Weights) returns (r: real)
    ensures r == Agreement(ms, w)
  {
    hide By, Pull, Against;
    NobodyYet();
    var byEngine: map<Engine, seq<Direction>> := map[];
    var i := 0;
    while i < |ms|
      invariant 0 <= i <= |ms| && Gathered(byEngine, ms[..i])
    {
      var m := ms[i];
      GatherOne(byEngine, ms, i);
      byEngine := byEngine[m.engine := (if m.engine in byEngine then byEngine[m.engine] else []) + [m.direction]];
      i := i + 1;
    }
    assert ms[..i] == ms;
    NobodyMeansEmpty(byEngine, ms);
    if byEngine == map[] { return 0.0; }
    var total, disagreement := 0.0, 0.0;
    var g := 0;
    while g < |GROUPS|
      invariant 0 <= g <= |GROUPS|
      invariant total == Total(ms, w, GROUPS[..g]) && disagreement == Disagreement(ms, w, GROUPS[..g])
    {
      assert GROUPS[..g + 1][..g] == GROUPS[..g];
      var weight, against := OneGroupSum(byEngine, w, GROUPS[g], ms);
      total, disagreement := total + weight, disagreement + against;
      g := g + 1;
    }
    assert GROUPS[..g] == GROUPS;
    if total <= 0.0 { return 0.0; }
    var normalized := if disagreement / total < 1.0 then disagreement / total else 1.0;
    r := if 1.0 - normalized > 0.0 then 1.0 - normalized else 0.0;
  }

  predicate Gathered(book: map<Engine, seq<Direction>>, ms: seq<Vote>) {
    forall e: Engine :: (e in book <==> By(ms, e) != []) && (e in book ==> book[e] == By(ms, e))
  }

  lemma NobodyYet()
    ensures Gathered(map[], [])
  {}

  lemma GatherOne(book: map<Engine, seq<Direction>>, ms: seq<Vote>, i: nat)
    requires i < |ms| && Gathered(book, ms[..i])
    ensures var m := ms[i];
            Gathered(book[m.engine := (if m.engine in book then book[m.engine] else []) + [m.direction]], ms[..i + 1])
  {
    assert ms[..i + 1][..i] == ms[..i];
  }

  lemma NobodyMeansEmpty(book: map<Engine, seq<Direction>>, ms: seq<Vote>)
    requires Gathered(book, ms)
    ensures book == map[] <==> ms == []
  {
    LastSpeaks(ms);
    if book != map[] {
      var e :| e in book;
      assert By(ms, e) != [];
    }
  }

  lemma LastSpeaks(ms: seq<Vote>)
    ensures ms != [] ==> By(ms, ms[|ms| - 1].engine) != []
  {}

  method OneGroupSum(book: map<Engine, seq<Direction>>, w: Weights, es: seq<Engine>, ghost ms: seq<Vote>)
      returns (weight: real, against: real)
    requires Gathered(book, ms)
    ensures weight == GroupWeight(ms, w, es) && against == GroupDisagreement(ms, w, es)
  {
    hide By, Pull, Against;
    weight, against := 0.0, 0.0;
    var pull := 0.0;
    var k := 0;
    while k < |es|
      invariant 0 <= k <= |es|
      invariant weight == GroupWeight(ms, w, es[..k]) && pull == GroupPull(ms, w, es[..k])
    {
      assert es[..k + 1][..k] == es[..k];
      var e := es[k];
      var ds := if e in book then book[e] else [];
      var share := if ds == [] then 0.0 else w(e) / |ds| as real;
      weight := weight + (if ds == [] then 0.0 else w(e));
      pull := pull + Pull(ds, share);
      k := k + 1;
    }
    assert es[..k] == es;
    var dom := Dominant(pull);
    if dom == 0 { return; }
    k := 0;
    while k < |es|
      invariant 0 <= k <= |es| && against == GroupAgainst(ms, w, es[..k], dom)
    {
      assert es[..k + 1][..k] == es[..k];
      var e := es[k];
      var ds := if e in book then book[e] else [];
      var share := if ds == [] then 0.0 else w(e) / |ds| as real;
      against := against + Against(ds, dom, share);
      k := k + 1;
    }
    assert es[..k] == es;
  }
}
