/** Assembling the evidence fabric: admission, canonical order, and a hash that depends
    on the admitted contents alone. */
module Fabric {
  import opened Wrappers
  import opened TextOrder
  import Shuffle
  import Sorting

  datatype LifeState = CANDIDATE | CONFIRMED | ACTIVE | MITIGATED | INVALIDATED | EXPIRED | SUPERSEDED

  /** Everything of a piece of evidence but its random id. */
  datatype Content = Content(
    engineId: string, symbol: string, timeframe: string, state: LifeState, direction: int, quality: real,
    resolutionClass: string, ageBars: real, asOf: int, snapshotId: string, lineage: seq<string>, parentIds: seq<string>)

  datatype Ref = Ref(evidenceId: string, content: Content)

  /** The canonical body that is hashed. */
  datatype Body = Body(
    asOf: int, symbol: string, timeframe: string, evidence: seq<string>, dataTrust: real, conflictState: string,
    redundancy: map<string, real>)

  datatype Request = Request(
    symbol: string, timeframe: string, asOf: int, dataTrust: real, conflictState: string, redundancy: map<string, real>,
    rawIds: Option<set<string>>)

  /** The two hashes, and the seconds of each known timeframe. */
  datatype Env = Env(contentId: Content -> string, digest: Body -> string, seconds: map<string, int>)

  /** No two of these contents share their id. */
  predicate NoCollision(env: Env, a: seq<Content>, b: seq<Content>) {
    forall i, j :: 0 <= i < |a| && 0 <= j < |b| && env.contentId(a[i]) == env.contentId(b[j]) ==> a[i] == b[j]
  }

  // ---- admission ----------------------------------------------------------

  predicate LineageOk(c: Content, rawIds: set<string>) { exists i :: 0 <= i < |c.lineage| && c.lineage[i] in rawIds }

  /** Why a piece of evidence stays out, if it does. */
  function Exclusion(env: Env, q: Request, c: Content): (reason: Option<string>)
    requires q.timeframe in env.seconds
  {
    if c.symbol != q.symbol || c.timeframe != q.timeframe then Some("FABRIC_SCOPE_MISMATCH_QX")
    else if c.state != ACTIVE then Some("NOT_ACTIVE_SL14")
    else if c.asOf > q.asOf then Some("E-PIT-001")
    else if q.rawIds.Some? && !LineageOk(c, q.rawIds.value) then Some("LINEAGE_UNRESOLVED_QX")
    else if c.ageBars * env.seconds[q.timeframe] as real > (5 * env.seconds[q.timeframe]) as real then Some("EXPIRED_5TF")
    else None
  }

  function Admitted(env: Env, q: Request, es: seq<Ref>): (r: seq<Ref>)
    requires q.timeframe in env.seconds
  {
    if es == [] then []
    else Admitted(env, q, es[..|es| - 1]) + (if Exclusion(env, q, es[|es| - 1].content).None? then [es[|es| - 1]] else [])
  }

  function Excluded(env: Env, q: Request, es: seq<Ref>): (r: seq<(string, string)>)
    requires q.timeframe in env.seconds
  {
    if es == [] then []
    else
      var e := es[|es| - 1];
      var reason := Exclusion(env, q, e.content);
      Excluded(env, q, es[..|es| - 1]) + (if reason.Some? then [(e.evidenceId, reason.value)] else [])
  }

  // ---- canonical order ----------------------------------------------------

  /** Content identity first, the random id only to break ties. */
  predicate Before(env: Env, a: Ref, b: Ref) {
    var x, y := env.contentId(a.content), env.contentId(b.content);
    Less(x, y) || (x == y && !Less(b.evidenceId, a.evidenceId))
  }

  lemma BeforeIsTotal(env: Env, a: Ref, b: Ref)
    ensures Before(env, a, b) || Before(env, b, a)
    ensures Before(env, a, b) && Before(env, b, a) ==> env.contentId(a.content) == env.contentId(b.content) && a.evidenceId == b.evidenceId
  {
    hide Less;
    LessIsTotal(env.contentId(a.content), env.contentId(b.content));
    LessIsTotal(a.evidenceId, b.evidenceId);
  }

  lemma BeforeIsTransitive(env: Env, a: Ref, b: Ref, c: Ref)
    requires Before(env, a, b) && Before(env, b, c)
    ensures Before(env, a, c)
  {
    hide Less;
    var x, y, z := env.contentId(a.content), env.contentId(b.content), env.contentId(c.content);
    if Less(x, y) && Less(y, z) { LessIsTransitive(x, y, z); }
    LessIsTotal(a.evidenceId, b.evidenceId);
    LessIsTotal(b.evidenceId, c.evidenceId);
    if Less(c.evidenceId, a.evidenceId) && Less(a.evidenceId, b.evidenceId) { LessIsTransitive(c.evidenceId, a.evidenceId, b.evidenceId); }
  }

  function Order(env: Env): (leq: (Ref, Ref) -> bool) { (a, b) => Before(env, a, b) }

  lemma BeforeIsAnOrder(env: Env)
    ensures Sorting.Order(Order(env))
  {
    hide Before;
    forall a, b
      ensures Before(env, a, b) || Before(env, b, a)
    {
      BeforeIsTotal(env, a, b);
    }
    forall a, b, c | Before(env, a, b) && Before(env, b, c)
      ensures Before(env, a, c)
    {
      BeforeIsTransitive(env, a, b, c);
    }
  }

  predicate Ordered(env: Env, ms: seq<Ref>) { Sorting.Ordered(Order(env), ms) }

  function Sorted(env: Env, ms: seq<Ref>): (r: seq<Ref>) { Sorting.Sorted(Order(env), ms) }

  lemma SortLaw(env: Env, ms: seq<Ref>)
    ensures Ordered(env, Sorted(env, ms)) && multiset(Sorted(env, ms)) == multiset(ms)
  {
    BeforeIsAnOrder(env);
    Sorting.SortLaw(Order(env), ms);
  }

  function Ids(env: Env, ms: seq<Ref>): (r: seq<string>) { seq(|ms|, i requires 0 <= i < |ms| => env.contentId(ms[i].content)) }

  predicate Ascending(ids: seq<string>) { forall i, j :: 0 <= i < j < |ids| ==> !Less(ids[j], ids[i]) }

  lemma OrderedIdsAscend(env: Env, ms: seq<Ref>)
    requires Ordered(env, ms)
    ensures Ascending(Ids(env, ms))
  {
    hide Less;
    forall i, j | 0 <= i < j < |ms|
      ensures !Less(Ids(env, ms)[j], Ids(env, ms)[i])
    {
      assert Before(env, ms[i], ms[j]);
      LessIsTotal(Ids(env, ms)[i], Ids(env, ms)[j]);
    }
  }

  /** Ascending lists with the same contents are the same list. */
  lemma {:induction false} AscendingIsUnique(a: seq<string>, b: seq<string>)
    requires Ascending(a) && Ascending(b) && multiset(a) == multiset(b)
    ensures a == b
    decreases |a|
  {
    hide Less;
    Shuffle.SameLength(a, b);
    if a != [] {
      var n := |a| - 1;
      LastIsGreatest(a, b);
      LastIsGreatest(b, a);
      LessIsTotal(a[n], b[n]);
      Shuffle.Snoc([], a);
      Shuffle.Snoc([], b);
      assert multiset(a[..n] + [a[n]]) == multiset(a[..n]) + multiset{a[n]};
      assert multiset(b[..n] + [b[n]]) == multiset(b[..n]) + multiset{b[n]};
      Shuffle.Cancel(multiset(a[..n]), multiset(b[..n]), a[n]);
      AscendingIsUnique(a[..n], b[..n]);
    }
  }

  lemma LastIsGreatest(a: seq<string>, b: seq<string>)
    requires Ascending(a) && a != [] && |a| == |b| && multiset(a) == multiset(b)
    ensures !Less(a[|a| - 1], b[|a| - 1])
  {
    hide Less;
    var n := |a| - 1;
    assert b[n] in multiset(b);
    var k := Shuffle.Place(a, b[n]);
    LessIsTotal(a[n], a[n]);
  }

  // ---- the fabric ---------------------------------------------------------

  datatype Fabric = Fabric(
    asOf: int, symbol: string, timeframe: string, members: seq<Ref>, dataTrust: real, conflictState: string,
    redundancy: map<string, real>, hash: string, excluded: seq<(string, string)>)

  function Refused(env: Env, q: Request): (reason: Option<string>) {
    if q.symbol == "" || q.timeframe == "" then Some("FABRIC_KEY_QX")
    else if !(0.0 <= q.dataTrust <= 1.0) then Some("FABRIC_DATA_TRUST_QX")
    else if q.timeframe !in env.seconds then Some("E-VAL-022")
    else None
  }

  function Assembled(env: Env, q: Request, es: seq<Ref>): (f: Fabric)
    requires Refused(env, q).None?
  {
    var members := Sorted(env, Admitted(env, q, es));
    Fabric(q.asOf, q.symbol, q.timeframe, members, q.dataTrust, q.conflictState, q.redundancy,
      env.digest(Body(q.asOf, q.symbol, q.timeframe, Ids(env, members), q.dataTrust, q.conflictState, q.redundancy)),
      Excluded(env, q, es))
  }

  method Assemble(env: Env, q: Request, es: seq<Ref>) returns (r: Result<Fabric, string>)
    ensures Refused(env, q).Some? ==> r == Err(Refused(env, q).value)
    ensures Refused(env, q).None? ==> r == Ok(Assembled(env, q, es))
    ensures r.Ok? <==> q.symbol != "" && q.timeframe != "" && 0.0 <= q.dataTrust <= 1.0 && q.timeframe in env.seconds
    ensures r.Err? ==>
              r.error == if q.symbol == "" || q.timeframe == "" then "FABRIC_KEY_QX"
                         else if 0.0 <= q.dataTrust <= 1.0 then "E-VAL-022" else "FABRIC_DATA_TRUST_QX"
  {
    hide Exclusion;
    if q.symbol == "" || q.timeframe == "" { return Err("FABRIC_KEY_QX"); }
    if !(0.0 <= q.dataTrust <= 1.0) { return Err("FABRIC_DATA_TRUST_QX"); }
    if q.timeframe !in env.seconds { return Err("E-VAL-022"); }
    var admitted: seq<Ref>, excluded: seq<(string, string)> := [], [];
    var i := 0;
    while i < |es|
      invariant 0 <= i <= |es| && admitted == Admitted(env, q, es[..i]) && excluded == Excluded(env, q, es[..i])
    {
      assert es[..i + 1][..i] == es[..i];
      var reason := Exclusion(env, q, es[i].content);
      if reason.Some? {
        excluded := excluded + [(es[i].evidenceId, reason.value)];
      } else {
        admitted := admitted + [es[i]];
      }
      i := i + 1;
    }
    assert es[..i] == es;
    var members := Sorting.Sort(Order(env), admitted);
    var body := Body(q.asOf, q.symbol, q.timeframe, Ids(env, members), q.dataTrust, q.conflictState, q.redundancy);
    r := Ok(Fabric(q.asOf, q.symbol, q.timeframe, members, q.dataTrust, q.conflictState, q.redundancy, env.digest(body), excluded));
  }

  // ---- main results -------------------------------------------------------

  /** How many of the inputs are excluded with a reason. */
  function OutOf(env: Env, q: Request, es: seq<Ref>): (r: seq<Ref>)
    requires q.timeframe in env.seconds
  {
    if es == [] then []
    else OutOf(env, q, es[..|es| - 1]) + (if Exclusion(env, q, es[|es| - 1].content).Some? then [es[|es| - 1]] else [])
  }

  lemma {:induction false} SplitLaw(env: Env, q: Request, es: seq<Ref>)
    requires q.timeframe in env.seconds
    ensures multiset(Admitted(env, q, es)) + multiset(OutOf(env, q, es)) == multiset(es)
  {
    hide Exclusion;
    if es != [] {
      var front, e := es[..|es| - 1], es[|es| - 1];
      var a, o := Admitted(env, q, front), OutOf(env, q, front);
      SplitLaw(env, q, front);
      Shuffle.Snoc([], es);
      assert multiset(front + [e]) == multiset(front) + multiset{e};
      assert multiset(a + [e]) == multiset(a) + multiset{e} && multiset(o + [e]) == multiset(o) + multiset{e};
      assert a + [] == a && o + [] == o;
    }
  }

  lemma {:induction false} AdmittedPass(env: Env, q: Request, es: seq<Ref>, i: nat)
    requires q.timeframe in env.seconds && i < |Admitted(env, q, es)|
    ensures Exclusion(env, q, Admitted(env, q, es)[i].content).None?
  {
    hide Exclusion;
    if es != [] {
      var front := es[..|es| - 1];
      if i < |Admitted(env, q, front)| { AdmittedPass(env, q, front, i); }
    }
  }

  lemma {:induction false} ExcludedMatch(env: Env, q: Request, es: seq<Ref>)
    requires q.timeframe in env.seconds
    ensures var o, x := OutOf(env, q, es), Excluded(env, q, es);
            |o| == |x| && forall i :: 0 <= i < |o| ==> x[i].0 == o[i].evidenceId && Exclusion(env, q, o[i].content) == Some(x[i].1)
  {
    hide Exclusion;
    if es != [] {
      var front := es[..|es| - 1];
      var o, x := OutOf(env, q, front), Excluded(env, q, front);
      ExcludedMatch(env, q, front);
      assert o + [] == o && x + [] == x;
    }
  }

  /** Every input is a member or is excluded with its reason, exactly one of the two, as
      often as it was given. */
  lemma EveryInputAccountedFor(env: Env, q: Request, es: seq<Ref>)
    requires Refused(env, q).None?
    ensures var f := Assembled(env, q, es);
            && multiset(f.members) + multiset(OutOf(env, q, es)) == multiset(es)
            && |f.members| + |f.excluded| == |es| && |f.excluded| == |OutOf(env, q, es)|
            && (forall i :: 0 <= i < |f.members| ==> Exclusion(env, q, f.members[i].content).None?)
            && (forall i :: 0 <= i < |f.excluded| ==>
                  f.excluded[i].0 == OutOf(env, q, es)[i].evidenceId && Exclusion(env, q, OutOf(env, q, es)[i].content) == Some(f.excluded[i].1))
  {
    hide Exclusion, Sorted, Admitted, OutOf, Excluded;
    var a, o := Admitted(env, q, es), OutOf(env, q, es);
    SplitLaw(env, q, es);
    ExcludedMatch(env, q, es);
    SortLaw(env, a);
    var f := Assembled(env, q, es);
    Shuffle.SameLength(f.members, a);
    assert |multiset(a) + multiset(o)| == |a| + |o| && |multiset(es)| == |es|;
    forall i | 0 <= i < |f.members|
      ensures Exclusion(env, q, f.members[i].content).None?
    {
      assert f.members[i] in multiset(a);
      var k := Shuffle.Place(a, f.members[i]);
      AdmittedPass(env, q, es, k);
    }
  }

  /** Of the request's own symbol and timeframe, active, not later than the request, resolved
      to a raw id where those are given, and at most five bars old. */
  ghost predicate Fits(q: Request, c: Content) {
    && c.symbol == q.symbol && c.timeframe == q.timeframe && c.state == ACTIVE && c.asOf <= q.asOf
    && (q.rawIds.Some? ==> exists id :: id in c.lineage && id in q.rawIds.value) && c.ageBars <= 5.0
  }

  /** The first of the conditions a piece of evidence fails, by its code. */
  ghost predicate FailsFirst(q: Request, c: Content, code: string) {
    var scope := c.symbol == q.symbol && c.timeframe == q.timeframe;
    var known := q.rawIds.Some? ==> exists id :: id in c.lineage && id in q.rawIds.value;
    || (code == "FABRIC_SCOPE_MISMATCH_QX" && !scope)
    || (code == "NOT_ACTIVE_SL14" && scope && c.state != ACTIVE)
    || (code == "E-PIT-001" && scope && c.state == ACTIVE && q.asOf < c.asOf)
    || (code == "LINEAGE_UNRESOLVED_QX" && scope && c.state == ACTIVE && c.asOf <= q.asOf && !known)
    || (code == "EXPIRED_5TF" && scope && c.state == ACTIVE && c.asOf <= q.asOf && known && 5.0 < c.ageBars)
  }

  lemma ExclusionMeans(env: Env, q: Request, c: Content)
    requires q.timeframe in env.seconds && env.seconds[q.timeframe] > 0
    ensures Exclusion(env, q, c).None? <==> Fits(q, c)
    ensures forall code :: Exclusion(env, q, c) == Some(code) <==> FailsFirst(q, c, code)
  {
    FiveBars(c.ageBars, env.seconds[q.timeframe]);
    if q.rawIds.Some? { LineageMeans(c, q.rawIds.value); }
  }

  lemma FiveBars(age: real, seconds: int)
    requires seconds > 0
    ensures age * seconds as real > (5 * seconds) as real <==> age > 5.0
  {
    Scaled(age, 5.0, seconds as real);
  }

  lemma Scaled(x: real, y: real, z: real)
    requires z > 0.0
    ensures x > y <==> x * z > y * z
  {}

  lemma LineageMeans(c: Content, rawIds: set<string>)
    ensures LineageOk(c, rawIds) <==> exists id :: id in c.lineage && id in rawIds
  {
    if i :| 0 <= i < |c.lineage| && c.lineage[i] in rawIds { assert c.lineage[i] in c.lineage; }
  }

  lemma {:induction false} AdmittedTimes(env: Env, q: Request, es: seq<Ref>, e: Ref)
    requires q.timeframe in env.seconds
    ensures multiset(Admitted(env, q, es))[e] == if Exclusion(env, q, e.content).None? then multiset(es)[e] else 0
  {
    hide Exclusion;
    if es != [] {
      var front, last := es[..|es| - 1], es[|es| - 1];
      var a := Admitted(env, q, front);
      AdmittedTimes(env, q, front, e);
      Shuffle.Snoc([], es);
      assert multiset(front + [last]) == multiset(front) + multiset{last} && multiset(a + [last]) == multiset(a) + multiset{last};
      assert a + [] == a;
    }
  }

  ghost predicate OutFor(env: Env, q: Request, e: Ref, id: string, code: string)
    requires q.timeframe in env.seconds
  {
    e.evidenceId == id && Exclusion(env, q, e.content) == Some(code)
  }

  lemma {:induction false} ExcludedAre(env: Env, q: Request, es: seq<Ref>, id: string, code: string)
    requires q.timeframe in env.seconds
    ensures (id, code) in Excluded(env, q, es) <==> exists e :: e in es && OutFor(env, q, e, id, code)
  {
    hide Exclusion;
    if es != [] {
      var front, last := es[..|es| - 1], es[|es| - 1];
      ExcludedAre(env, q, front, id, code);
      assert es == front + [last];
      assert (exists e :: e in es && OutFor(env, q, e, id, code)) <==>
             (exists e :: e in front && OutFor(env, q, e, id, code)) || OutFor(env, q, last, id, code);
    }
  }

  /** Who is in and who is out, and why: a piece of evidence is a member, as often as it was
      given, exactly when it fits, and each of the others is listed with the first condition
      it fails; the members stand in ascending order of content id. */
  lemma WhoIsIn(env: Env, q: Request, es: seq<Ref>)
    requires Refused(env, q).None? && env.seconds[q.timeframe] > 0
    ensures var f := Assembled(env, q, es);
            && (forall e :: multiset(f.members)[e] == if Fits(q, e.content) then multiset(es)[e] else 0)
            && (forall id, code :: (id, code) in f.excluded <==>
                  exists e :: e in es && e.evidenceId == id && FailsFirst(q, e.content, code))
            && (forall i, j :: 0 <= i < j < |f.members| ==> !Less(env.contentId(f.members[j].content), env.contentId(f.members[i].content)))
  {
    hide Exclusion, Sorted, Admitted, Excluded, Fits, FailsFirst, Less;
    var f := Assembled(env, q, es);
    SortLaw(env, Admitted(env, q, es));
    OrderedIdsAscend(env, f.members);
    assert forall i :: 0 <= i < |f.members| ==> Ids(env, f.members)[i] == env.contentId(f.members[i].content);
    forall c
      ensures (Exclusion(env, q, c).None? <==> Fits(q, c)) && forall code :: Exclusion(env, q, c) == Some(code) <==> FailsFirst(q, c, code)
    {
      ExclusionMeans(env, q, c);
    }
    forall e
      ensures multiset(f.members)[e] == if Fits(q, e.content) then multiset(es)[e] else 0
    {
      AdmittedTimes(env, q, es, e);
    }
    forall id, code
      ensures (id, code) in f.excluded <==> exists e :: e in es && e.evidenceId == id && FailsFirst(q, e.content, code)
    {
      ExcludedAre(env, q, es, id, code);
      if e :| e in es && e.evidenceId == id && FailsFirst(q, e.content, code) { assert OutFor(env, q, e, id, code); }
    }
  }

  function Contents(es: seq<Ref>): (r: seq<Content>) { seq(|es|, i requires 0 <= i < |es| => es[i].content) }

  /** The ids that go into the body, in the order the evidence came. */
  function IdsOf(env: Env, q: Request, cs: seq<Content>): (r: seq<string>)
    requires q.timeframe in env.seconds
  {
    if cs == [] then []
    else IdsOf(env, q, cs[..|cs| - 1]) + (if Exclusion(env, q, cs[|cs| - 1]).None? then [env.contentId(cs[|cs| - 1])] else [])
  }

  lemma {:induction false} IdsOfAdmitted(env: Env, q: Request, es: seq<Ref>)
    requires q.timeframe in env.seconds
    ensures Ids(env, Admitted(env, q, es)) == IdsOf(env, q, Contents(es))
  {
    hide Exclusion;
    if es != [] {
      IdsOfAdmitted(env, q, es[..|es| - 1]);
      assert Contents(es)[..|es| - 1] == Contents(es[..|es| - 1]);
    }
  }

  lemma {:induction false} IdsOfConcat(env: Env, q: Request, a: seq<Content>, b: seq<Content>)
    requires q.timeframe in env.seconds
    ensures IdsOf(env, q, a + b) == IdsOf(env, q, a) + IdsOf(env, q, b)
  {
    hide Exclusion;
    if b == [] {
      assert a + b == a;
    } else {
      IdsOfConcat(env, q, a, b[..|b| - 1]);
      assert (a + b)[..|a + b| - 1] == a + b[..|b| - 1];
    }
  }

  lemma {:induction false} IdsOfReordered(env: Env, q: Request, a: seq<Content>, b: seq<Content>)
    requires q.timeframe in env.seconds && multiset(a) == multiset(b)
    ensures multiset(IdsOf(env, q, a)) == multiset(IdsOf(env, q, b))
    decreases |a|
  {
    Shuffle.SameLength(a, b);
    if a != [] {
      var c, front := a[|a| - 1], a[..|a| - 1];
      var k := Shuffle.Matched(a, b);
      var x, y := b[..k], b[k + 1..];
      IdsOfReordered(env, q, front, x + y);
      Shuffle.Snoc([], a);
      assert front + [c] == a;
      hide IdsOf;
      IdsOfConcat(env, q, front, [c]);
      IdsOfConcat(env, q, x + [c], y);
      IdsOfConcat(env, q, x, [c]);
      IdsOfConcat(env, q, x, y);
      Shuffle.Regroup(IdsOf(env, q, front), IdsOf(env, q, x), IdsOf(env, q, [c]), IdsOf(env, q, y));
    }
  }

  lemma {:induction false} IdsOfSame(env: Env, a: seq<Ref>, b: seq<Ref>)
    requires multiset(a) == multiset(b)
    ensures multiset(Ids(env, a)) == multiset(Ids(env, b))
    decreases |a|
  {
    Shuffle.SameLength(a, b);
    if a != [] {
      var m, front := a[|a| - 1], a[..|a| - 1];
      var k := Shuffle.Matched(a, b);
      var x, y := b[..k], b[k + 1..];
      IdsOfSame(env, front, x + y);
      assert Ids(env, a) == Ids(env, front) + [env.contentId(m.content)];
      assert Ids(env, b) == Ids(env, x) + [env.contentId(m.content)] + Ids(env, y) && Ids(env, x + y) == Ids(env, x) + Ids(env, y);
      hide Ids;
      Shuffle.Regroup(Ids(env, front), Ids(env, x), [env.contentId(m.content)], Ids(env, y));
    }
  }

  /** The hash sees the contents only: giving the evidence in another order, or under
      other ids, changes nothing. */
  lemma HashIgnoresOrderAndNames(env: Env, q: Request, es: seq<Ref>, fs: seq<Ref>)
    requires Refused(env, q).None? && multiset(Contents(es)) == multiset(Contents(fs))
    ensures Assembled(env, q, es).hash == Assembled(env, q, fs).hash
  {
    hide Sorted, Admitted, Ids, IdsOf, Contents;
    var a, b := Admitted(env, q, es), Admitted(env, q, fs);
    SortLaw(env, a);
    SortLaw(env, b);
    IdsOfSame(env, Sorted(env, a), a);
    IdsOfSame(env, Sorted(env, b), b);
    IdsOfAdmitted(env, q, es);
    IdsOfAdmitted(env, q, fs);
    IdsOfReordered(env, q, Contents(es), Contents(fs));
    OrderedIdsAscend(env, Sorted(env, a));
    OrderedIdsAscend(env, Sorted(env, b));
    AscendingIsUnique(Ids(env, Sorted(env, a)), Ids(env, Sorted(env, b)));
  }

  lemma {:induction false} AllAdmitted(env: Env, q: Request, ms: seq<Ref>)
    requires q.timeframe in env.seconds && forall i :: 0 <= i < |ms| ==> Exclusion(env, q, ms[i].content).None?
    ensures Admitted(env, q, ms) == ms && Excluded(env, q, ms) == []
  {
    hide Exclusion;
    if ms != [] { AllAdmitted(env, q, ms[..|ms| - 1]); }
  }

  /** Assembling a fabric's own members again gives the same fabric, nothing excluded. */
  lemma ReassemblyIsIdentity(env: Env, q: Request, es: seq<Ref>)
    requires Refused(env, q).None?
    ensures var f := Assembled(env, q, es); Assembled(env, q, f.members) == f.(excluded := [])
  {
    hide Exclusion, Admitted, Excluded, Ids;
    var f := Assembled(env, q, es);
    EveryInputAccountedFor(env, q, es);
    SortLaw(env, Admitted(env, q, es));
    AllAdmitted(env, q, f.members);
    Sorting.SortedStays(Order(env), f.members);
    assert Sorted(env, f.members) == f.members;
  }

  function BodyOf(env: Env, q: Request, es: seq<Ref>): (body: Body)
    requires Refused(env, q).None?
  {
    Body(q.asOf, q.symbol, q.timeframe, Ids(env, Assembled(env, q, es).members), q.dataTrust, q.conflictState, q.redundancy)
  }

  /** Every member was among the inputs. */
  lemma MembersAreInputs(env: Env, q: Request, es: seq<Ref>, m: Ref)
    requires Refused(env, q).None? && m in Assembled(env, q, es).members
    ensures m in es
  {
    hide Sorted, Admitted, OutOf;
    EveryInputAccountedFor(env, q, es);
    assert m in multiset(Assembled(env, q, es).members);
    assert m in multiset(es);
  }

  /** Two fabrics of one request with equal hashes hold the same contents, unless two of
      the contents at hand share an id or the two different bodies share a digest. */
  lemma HashDeterminesContents(env: Env, q: Request, es: seq<Ref>, fs: seq<Ref>)
    requires Refused(env, q).None? && NoCollision(env, Contents(es), Contents(fs))
    requires env.digest(BodyOf(env, q, es)) == env.digest(BodyOf(env, q, fs)) ==> BodyOf(env, q, es) == BodyOf(env, q, fs)
    ensures Assembled(env, q, es).hash == Assembled(env, q, fs).hash
       <==> Contents(Assembled(env, q, es).members) == Contents(Assembled(env, q, fs).members)
  {
    hide Sorted, Admitted;
    var a, b := Assembled(env, q, es).members, Assembled(env, q, fs).members;
    assert |Ids(env, a)| == |a| && |Ids(env, b)| == |b|;
    if Assembled(env, q, es).hash == Assembled(env, q, fs).hash {
      assert Ids(env, a) == Ids(env, b);
      forall i | 0 <= i < |a|
        ensures a[i].content == b[i].content
      {
        assert Ids(env, a)[i] == Ids(env, b)[i];
        MembersAreInputs(env, q, es, a[i]);
        MembersAreInputs(env, q, fs, b[i]);
        SharedId(env, es, fs, a[i], b[i]);
      }
    }
    SameContentsSameIds(env, a, b);
  }

  lemma SameContentsSameIds(env: Env, a: seq<Ref>, b: seq<Ref>)
    ensures Contents(a) == Contents(b) ==> Ids(env, a) == Ids(env, b)
  {
    if Contents(a) == Contents(b) {
      assert |Contents(a)| == |a| && |Contents(b)| == |b|;
      assert forall i :: 0 <= i < |a| ==> Contents(a)[i] == a[i].content && Contents(b)[i] == b[i].content;
    }
  }

  lemma SharedId(env: Env, es: seq<Ref>, fs: seq<Ref>, x: Ref, y: Ref)
    requires NoCollision(env, Contents(es), Contents(fs)) && x in es && y in fs && env.contentId(x.content) == env.contentId(y.content)
    ensures x.content == y.content
  {
    var i :| 0 <= i < |es| && es[i] == x;
    var j :| 0 <= j < |fs| && fs[j] == y;
    assert Contents(es)[i] == x.content && Contents(fs)[j] == y.content;
  }

  // ---- the lifecycle ------------------------------------------------------

  function Forward(s: LifeState): (r: set<LifeState>) {
    match s
    case CANDIDATE => {CONFIRMED}
    case CONFIRMED => {ACTIVE}
    case ACTIVE => {MITIGATED, INVALIDATED, EXPIRED, SUPERSEDED}
    case MITIGATED => {INVALIDATED, EXPIRED, SUPERSEDED}
    case _ => {}
  }

  function AdvanceLifecycle(src: LifeState, dst: LifeState): (r: Result<LifeState, string>) {
    if dst in Forward(src) then Ok(dst) else Err("ILLEGAL_SL14_TRANSITION_QX")
  }

  predicate Terminal(s: LifeState) { s == INVALIDATED || s == EXPIRED || s == SUPERSEDED }

  function Stage(s: LifeState): (n: nat) {
    match s case CANDIDATE => 0 case CONFIRMED => 1 case ACTIVE => 2 case MITIGATED => 3 case _ => 4
  }

  /** A life: each state after the first was granted by the machine. */
  predicate Life(ss: seq<LifeState>) { forall i :: 0 < i < |ss| ==> AdvanceLifecycle(ss[i - 1], ss[i]) == Ok(ss[i]) }

  /** A life only moves on: no state comes twice, a terminal state is the last, and what
      began as a candidate becomes active only through confirmation. */
  lemma {:induction false} LivesOnlyMoveOn(ss: seq<LifeState>, i: nat, j: nat)
    requires Life(ss) && i < j < |ss|
    ensures Stage(ss[i]) < Stage(ss[j]) && ss[i] != ss[j] && !Terminal(ss[i])
    ensures ss[i] == CANDIDATE && ss[j] == ACTIVE ==> j == i + 2 && ss[i + 1] == CONFIRMED
    decreases j
  {
    OneStep(ss[j - 1], ss[j]);
    OneStep(ss[i], ss[i + 1]);
    if i < j - 1 {
      LivesOnlyMoveOn(ss, i, j - 1);
      if i < j - 2 { LivesOnlyMoveOn(ss, i + 1, j - 1); }
    }
  }

  /** The machine grants exactly one stage forward, and from active an end at once. */
  lemma WhatIsGranted(a: LifeState, b: LifeState)
    ensures AdvanceLifecycle(a, b) == Ok(b) <==> Stage(b) == Stage(a) + 1 || (a == ACTIVE && Terminal(b))
    ensures AdvanceLifecycle(a, b) == Ok(b) || AdvanceLifecycle(a, b) == Err("ILLEGAL_SL14_TRANSITION_QX")
  {}

  /** Every later stage can be lived to from any state that is no end, and no other. */
  lemma WhereLivesLead(a: LifeState, b: LifeState)
    ensures (exists ss :: Life(ss) && |ss| > 1 && ss[0] == a && ss[|ss| - 1] == b) <==> Stage(a) < Stage(b)
  {
    if ss :| Life(ss) && |ss| > 1 && ss[0] == a && ss[|ss| - 1] == b { LivesOnlyMoveOn(ss, 0, |ss| - 1); }
    if Stage(a) < Stage(b) {
      var ss := LifeTo(a, b);
      assert Life(ss) && |ss| > 1 && ss[0] == a && ss[|ss| - 1] == b;
    }
  }

  lemma {:induction false} LifeTo(a: LifeState, b: LifeState) returns (ss: seq<LifeState>)
    requires Stage(a) < Stage(b)
    ensures Life(ss) && |ss| > 1 && ss[0] == a && ss[|ss| - 1] == b
    decreases Stage(b) - Stage(a)
  {
    if b in Forward(a) {
      ss := [a, b];
    } else {
      var next := if a == CANDIDATE then CONFIRMED else ACTIVE;
      var rest := LifeTo(next, b);
      ss := [a] + rest;
      forall i | 0 < i < |ss|
        ensures AdvanceLifecycle(ss[i - 1], ss[i]) == Ok(ss[i])
      {
        if i > 1 { assert ss[i - 1] == rest[i - 2] && ss[i] == rest[i - 1]; }
      }
    }
  }

  lemma OneStep(a: LifeState, b: LifeState)
    ensures AdvanceLifecycle(a, b) == Ok(b) ==> Stage(a) < Stage(b) && !Terminal(a)
    ensures AdvanceLifecycle(a, b) == Ok(b) && Stage(b) <= 2 ==> Stage(b) == Stage(a) + 1
    ensures Stage(a) == 1 <==> a == CONFIRMED
  {}
}
