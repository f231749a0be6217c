/** The conflict policy's one output, and the redundancy law of the setup score. */
module ConflictPolicy {
  import opened Wrappers
  import opened EvidenceVotes
  import Shuffle

  // ---- the terminal mapping -----------------------------------------------

  datatype MtfState = ALIGNED | PARTIALLY_ALIGNED | CONFLICTING | STALE | UNAVAILABLE | INSUFFICIENT

  datatype Output = CONSENSUS | MATERIAL_CONFLICT | INSUFFICIENT_EVIDENCE | HARD_CONFLICT

  /** Disagreement with nothing is total. */
  function DisagreementOf(ms: seq<Vote>, w: Weights): (d: real) {
    if ms == [] then 1.0 else if 1.0 - Agreement(ms, w) > 0.0 then 1.0 - Agreement(ms, w) else 0.0
  }

  predicate Sufficient(dataTrust: real, qRaw: Option<real>, qMin: real) {
    dataTrust >= 0.30 && qRaw.Some? && qRaw.value >= qMin
  }

  function Resolve(disagreement: real, dataTrust: real, qRaw: Option<real>, qMin: real, mtf: MtfState, hardFlags: bool): (out: Output) {
    if mtf == CONFLICTING then HARD_CONFLICT
    else if disagreement >= 0.60 then HARD_CONFLICT
    else if disagreement >= 0.35 then MATERIAL_CONFLICT
    else if !Sufficient(dataTrust, qRaw, qMin) then INSUFFICIENT_EVIDENCE
    else if !hardFlags then CONSENSUS
    else INSUFFICIENT_EVIDENCE
  }

  /** Exactly when the policy says hard conflict on real evidence: the timeframes
      conflict, or there is no evidence, or it carries no weight. Disagreement between
      the engines alone never gets there. */
  lemma HardConflictOnlyFromTimeframes(ms: seq<Vote>, w: Weights, dataTrust: real, qRaw: Option<real>, qMin: real, mtf: MtfState, hardFlags: bool)
    requires NonNegative(w)
    ensures 0.0 <= DisagreementOf(ms, w) <= 1.0
    ensures Resolve(DisagreementOf(ms, w), dataTrust, qRaw, qMin, mtf, hardFlags) == HARD_CONFLICT
       <==> mtf == CONFLICTING || ms == [] || Total(ms, w, GROUPS) <= 0.0
    ensures ms != [] && Total(ms, w, GROUPS) > 0.0 ==> DisagreementOf(ms, w) < 0.5
  {
    hide Total, Disagreement;
    if ms != [] && Total(ms, w, GROUPS) > 0.0 { AgreementAboveHalf(ms, w); }
  }

  /** So under the shipped weights: only the timeframes, or no evidence at all. */
  lemma HardConflictUnderShippedWeights(ms: seq<Vote>, dataTrust: real, qRaw: Option<real>, qMin: real, mtf: MtfState, hardFlags: bool)
    ensures Resolve(DisagreementOf(ms, Shipped), dataTrust, qRaw, qMin, mtf, hardFlags) == HARD_CONFLICT <==> mtf == CONFLICTING || ms == []
  {
    hide Total, Disagreement, Agreement, Resolve;
    assert NonNegative(Shipped);
    if ms != [] { ShippedWeighs(ms); }
    HardConflictOnlyFromTimeframes(ms, Shipped, dataTrust, qRaw, qMin, mtf, hardFlags);
  }

  /** What each output says of evidence that carries weight, by its agreement. */
  lemma WhatOutputsMean(ms: seq<Vote>, w: Weights, dataTrust: real, qRaw: Option<real>, qMin: real, mtf: MtfState, hardFlags: bool)
    requires NonNegative(w) && ms != [] && Total(ms, w, GROUPS) > 0.0
    ensures var out, a := Resolve(DisagreementOf(ms, w), dataTrust, qRaw, qMin, mtf, hardFlags), Agreement(ms, w);
            var enough := dataTrust >= 0.30 && qRaw.Some? && qRaw.value >= qMin;
            && (out == HARD_CONFLICT <==> mtf == CONFLICTING)
            && (out == MATERIAL_CONFLICT <==> mtf != CONFLICTING && a <= 0.65)
            && (out == CONSENSUS <==> mtf != CONFLICTING && 0.65 < a && enough && !hardFlags)
            && (out == INSUFFICIENT_EVIDENCE <==> mtf != CONFLICTING && 0.65 < a && (hardFlags || !enough))
  {
    hide Total, Disagreement;
    AgreementAboveHalf(ms, w);
  }

  /** What the thresholds are for any degree of disagreement, the one of no evidence too. */
  lemma WhereOutputsChange(d: real, dataTrust: real, qRaw: Option<real>, qMin: real, mtf: MtfState, hardFlags: bool)
    ensures var out := Resolve(d, dataTrust, qRaw, qMin, mtf, hardFlags);
            && (out == HARD_CONFLICT <==> mtf == CONFLICTING || 0.60 <= d)
            && (out in {CONSENSUS, INSUFFICIENT_EVIDENCE} <==> mtf != CONFLICTING && d < 0.35)
  {}

  /** Restriction in increasing order. */
  function Restriction(out: Output): (n: nat) {
    match out case CONSENSUS => 0 case MATERIAL_CONFLICT => 1 case INSUFFICIENT_EVIDENCE => 2 case HARD_CONFLICT => 3
  }

  ghost predicate MonotoneInDisagreement(dataTrust: real, qRaw: Option<real>, qMin: real, mtf: MtfState, hardFlags: bool) {
    forall d, d' :: 0.0 <= d <= d' <= 1.0 ==>
      Restriction(Resolve(d, dataTrust, qRaw, qMin, mtf, hardFlags)) <= Restriction(Resolve(d', dataTrust, qRaw, qMin, mtf, hardFlags))
  }

  /** Rising disagreement never loosens the output exactly when the timeframes conflict,
      or the evidence suffices and no hard flag stands; otherwise it turns insufficient
      evidence into a mere material conflict. */
  lemma WhenRestrictionIsMonotone(dataTrust: real, qRaw: Option<real>, qMin: real, mtf: MtfState, hardFlags: bool)
    ensures MonotoneInDisagreement(dataTrust, qRaw, qMin, mtf, hardFlags)
       <==> mtf == CONFLICTING || (Sufficient(dataTrust, qRaw, qMin) && !hardFlags)
  {
    if mtf != CONFLICTING && !(Sufficient(dataTrust, qRaw, qMin) && !hardFlags) {
      assert Resolve(0.0, dataTrust, qRaw, qMin, mtf, hardFlags) == INSUFFICIENT_EVIDENCE;
      assert Resolve(0.4, dataTrust, qRaw, qMin, mtf, hardFlags) == MATERIAL_CONFLICT;
    }
  }

  // ---- redundancy ---------------------------------------------------------

  /** A correlated pair of components, with its measured coefficient. */
  datatype Pair = Pair(a: Engine, b: Engine, rho: Option<real>)

  const RHO_THRESHOLD := 0.85

  function Rank(e: Engine): (n: nat) {
    match e
    case E01 => 1 case E02 => 2 case E03 => 3 case E04 => 4 case E05 => 5 case E06 => 6
    case E07 => 7 case E08 => 8 case E09 => 9 case E10 => 10 case E11 => 11 case E12 => 12
  }

  /** The lower quality yields; on a tie the lower engine id. */
  function Victim(p: Pair, q: Engine -> real): (e: Engine) {
    if q(p.a) < q(p.b) then p.a else if q(p.b) < q(p.a) then p.b else if Rank(p.a) <= Rank(p.b) then p.a else p.b
  }

  lemma VictimIsSymmetric(p: Pair, q: Engine -> real)
    ensures Victim(p, q) == Victim(Pair(p.b, p.a, p.rho), q)
    ensures var v := Victim(p, q); v in {p.a, p.b} && q(v) <= q(p.a) && q(v) <= q(p.b)
    ensures q(p.a) == q(p.b) ==> Rank(Victim(p, q)) <= Rank(p.a) && Rank(Victim(p, q)) <= Rank(p.b)
  {}

  predicate Acts(p: Pair, terms: map<Engine, real>) {
    p.rho.Some? && (p.rho.value > RHO_THRESHOLD || p.rho.value < -RHO_THRESHOLD) && p.a in terms && p.b in terms
  }

  /** How often a component is the victim. */
  function Hits(ps: seq<Pair>, terms: map<Engine, real>, q: Engine -> real, e: Engine): (n: nat) {
    if ps == [] then 0
    else Hits(ps[..|ps| - 1], terms, q, e) + (if Acts(ps[|ps| - 1], terms) && Victim(ps[|ps| - 1], q) == e then 1 else 0)
  }

  function Halved(x: real, n: nat): (y: real) { if n == 0 then x else Halved(x, n - 1) * 0.5 }

  lemma HitsStep(ps: seq<Pair>, i: nat, terms: map<Engine, real>, q: Engine -> real)
    requires i < |ps|
    ensures forall e ::
      Hits(ps[..i + 1], terms, q, e) == Hits(ps[..i], terms, q, e) + if Acts(ps[i], terms) && Victim(ps[i], q) == e then 1 else 0
  {
    hide Acts, Victim;
    assert ps[..i + 1][..i] == ps[..i];
  }

  /** A single pair, correlated beyond 0.85 either way and with both terms present, halves
      the term of the lower quality, of the lower id on a tie, and no other. */
  lemma OnePair(p: Pair, terms: map<Engine, real>, q: Engine -> real, e: Engine)
    requires e in terms
    ensures var named := e == p.a || e == p.b;
            var other := if e == p.a then p.b else p.a;
            Halved(terms[e], Hits([p], terms, q, e))
            == if p.rho.Some? && (p.rho.value > 0.85 || p.rho.value < -0.85) && p.a in terms && p.b in terms
                  && named && (q(e) < q(other) || (q(e) == q(other) && Rank(e) <= Rank(other)))
               then terms[e] / 2.0 else terms[e]
  {
    assert [p][..0] == [];
    assert Hits([p], terms, q, e) == if Acts(p, terms) && Victim(p, q) == e then 1 else 0;
    HalvedStep(terms[e], 0);
    RankIsOne(p.a, p.b);
  }

  lemma RankIsOne(a: Engine, b: Engine)
    ensures Rank(a) == Rank(b) ==> a == b
  {}

  lemma ActsOnTerm(p: Pair, terms: map<Engine, real>, q: Engine -> real)
    requires Acts(p, terms)
    ensures Victim(p, q) in terms
  {}

  lemma HalvedStep(x: real, n: nat)
    ensures Halved(x, n + 1) == Halved(x, n) * 0.5 && Halved(x, 0) == x
  {}

  lemma NoHitsYet(ps: seq<Pair>, terms: map<Engine, real>, q: Engine -> real)
    ensures forall e :: Hits(ps[..0], terms, q, e) == 0
    ensures forall x :: Halved(x, 0) == x
  {}

  /** Each acting pair halves its own victim once, whatever the order of the pairs. */
  method ApplyRedundancy(terms: map<Engine, real>, q: Engine -> real, ps: seq<Pair>) returns (out: map<Engine, real>, victims: seq<Engine>)
    ensures out.Keys == terms.Keys && forall e :: e in terms ==> out[e] == Halved(terms[e], Hits(ps, terms, q, e))
    ensures victims == [] <==> forall i :: 0 <= i < |ps| ==> !Acts(ps[i], terms)
    ensures forall i :: 0 <= i < |victims| ==> victims[i] in terms && Hits(ps, terms, q, victims[i]) > 0
  {
    hide Acts, Hits, Rank, Halved;
    out, victims := terms, [];
    NoHitsYet(ps, terms, q);
    var i := 0;
    while i < |ps|
      invariant 0 <= i <= |ps| && out.Keys == terms.Keys
      invariant forall e :: e in terms ==> out[e] == Halved(terms[e], Hits(ps[..i], terms, q, e))
      invariant victims == [] <==> forall k :: 0 <= k < i ==> !Acts(ps[k], terms)
      invariant forall k :: 0 <= k < |victims| ==> victims[k] in terms && Hits(ps[..i], terms, q, victims[k]) > 0
    {
      HitsStep(ps, i, terms, q);
      if Acts(ps[i], terms) {
        var v := Victim(ps[i], q);
        ActsOnTerm(ps[i], terms, q);
        HalvedStep(terms[v], Hits(ps[..i], terms, q, v));
        out := out[v := out[v] * 0.5];
        victims := victims + [v];
      }
      i := i + 1;
    }
    assert ps[..i] == ps;
  }

  lemma {:induction false} HitsConcat(a: seq<Pair>, b: seq<Pair>, terms: map<Engine, real>, q: Engine -> real, e: Engine)
    ensures Hits(a + b, terms, q, e) == Hits(a, terms, q, e) + Hits(b, terms, q, e)
  {
    if b == [] {
      assert a + b == a;
    } else {
      HitsConcat(a, b[..|b| - 1], terms, q, e);
      assert (a + b)[..|a + b| - 1] == a + b[..|b| - 1];
    }
  }

  /** The order of the pairs does not matter. */
  lemma {:induction false} PairOrderDoesNotMatter(a: seq<Pair>, b: seq<Pair>, terms: map<Engine, real>, q: Engine -> real, e: Engine)
    requires multiset(a) == multiset(b)
    ensures Hits(a, terms, q, e) == Hits(b, terms, q, e)
    decreases |a|
  {
    hide Acts, Victim;
    Shuffle.SameLength(a, b);
    if a != [] {
      var p, front := a[|a| - 1], a[..|a| - 1];
      var k := Shuffle.Matched(a, b);
      var x, y := b[..k], b[k + 1..];
      PairOrderDoesNotMatter(front, x + y, terms, q, e);
      Shuffle.Snoc([], a);
      HitsConcat(front, [p], terms, q, e);
      HitsConcat(x + [p], y, terms, q, e);
      HitsConcat(x, [p], terms, q, e);
      HitsConcat(x, y, terms, q, e);
      assert front + [p] == a;
    }
  }

  lemma {:induction false} HalvedNeverRaises(x: real, n: nat)
    requires x >= 0.0
    ensures 0.0 <= Halved(x, n) <= x
  {
    if n > 0 { HalvedNeverRaises(x, n - 1); }
  }
}
