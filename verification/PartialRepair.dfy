/** The governed repair of bars that were stored before they closed: which rows are
    candidates, the verdict on each, and what an applied run changes. */
module PartialRepair {
  import opened Wrappers
  import TextOrder
  import CivilTime
  import KlineWalk
  import Sorting

  const SKEW_MS := 5000

  datatype Values = Values(open: Option<real>, high: Option<real>, low: Option<real>, close: Option<real>, volume: Option<real>)

  datatype Status = CLOSED | CORRECTED | SUPERSEDED

  /** A raw row with its market status. Raw rows are never deleted, so a row's place in
      the table stands for its event id. */
  datatype Row = Row(symbol: string, timeframe: string, asOf: string, createdAt: string, values: Values, status: Status)

  datatype Candidate = Candidate(index: nat, row: Row, openMs: nat, closeMs: nat)

  /** What an evidence entry's venue row parses to. */
  datatype Parsed = Unparseable | ParsedBar(openMs: Option<nat>, values: Values)

  datatype Entry = Entry(store: Values, parsed: Parsed, basename: string)

  datatype Source = VENUE_LIVE | EVIDENCE_FILE(basename: string)

  /** A fixed venue and evidence set. */
  datatype World = World(
    live: (string, string, nat) -> Option<Values>, evidence: (string, string, nat) -> seq<Entry>)

  datatype Verdict =
    | VERIFIED_CLOSED | WILL_CORRECT(values: Values, source: Source) | UNREPAIRABLE_VENUE_WINDOW_PASSED
    | REFUSED_OHLC(violation: KlineWalk.Violation) | REFUSED_EVIDENCE_MISMATCH | REFUSED_PARSE | SKIPPED_STILL_OPEN

  // ---- candidates ---------------------------------------------------------

  /** A closed row written before its bar had closed for five seconds. */
  function CandidateAt(rows: seq<Row>, i: nat, wanted: Option<set<(string, string)>>): (c: Option<Candidate>)
    requires i < |rows|
  {
    var r := rows[i];
    if r.status != CLOSED || (wanted.Some? && (r.symbol, r.timeframe) !in wanted.value) then None
    else
      var open, created := CivilTime.ParseIsoMs(r.asOf), CivilTime.ParseIsoMs(r.createdAt);
      if open == None || created == None then None
      else
        var close := CivilTime.CloseTimeMs(open.value, r.timeframe);
        if close.Err? || created.value >= close.value + SKEW_MS then None
        else Some(Candidate(i, r, open.value, close.value))
  }

  function Collected(rows: seq<Row>, n: nat, wanted: Option<set<(string, string)>>): (cs: seq<Candidate>)
    requires n <= |rows|
  {
    if n == 0 then []
    else
      var c := CandidateAt(rows, n - 1, wanted);
      Collected(rows, n - 1, wanted) + (if c.Some? then [c.value] else [])
  }

  predicate Earlier(a: Candidate, b: Candidate) {
    || TextOrder.Less(a.row.symbol, b.row.symbol)
    || (a.row.symbol == b.row.symbol && TextOrder.Less(a.row.timeframe, b.row.timeframe))
    || (a.row.symbol == b.row.symbol && a.row.timeframe == b.row.timeframe && a.openMs <= b.openMs)
  }

  const ORDER: (Candidate, Candidate) -> bool := (a, b) => Earlier(a, b)

  lemma EarlierIsAnOrder()
    ensures Sorting.Order(ORDER)
  {
    hide Earlier;
    forall a, b
      ensures ORDER(a, b) || ORDER(b, a)
    {
      EarlierIsTotal(a, b);
    }
    forall a, b, c | ORDER(a, b) && ORDER(b, c)
      ensures ORDER(a, c)
    {
      EarlierIsTransitive(a, b, c);
    }
  }

  lemma EarlierIsTotal(a: Candidate, b: Candidate)
    ensures Earlier(a, b) || Earlier(b, a)
  {
    hide TextOrder.Less;
    TextOrder.LessIsTotal(a.row.symbol, b.row.symbol);
    TextOrder.LessIsTotal(a.row.timeframe, b.row.timeframe);
  }

  lemma EarlierIsTransitive(a: Candidate, b: Candidate, c: Candidate)
    requires Earlier(a, b) && Earlier(b, c)
    ensures Earlier(a, c)
  {
    hide TextOrder.Less;
    var (x, y, z) := (a.row.symbol, b.row.symbol, c.row.symbol);
    var (u, v, w) := (a.row.timeframe, b.row.timeframe, c.row.timeframe);
    if TextOrder.Less(x, y) && TextOrder.Less(y, z) { TextOrder.LessIsTransitive(x, y, z); }
    if TextOrder.Less(u, v) && TextOrder.Less(v, w) { TextOrder.LessIsTransitive(u, v, w); }
  }

  function Candidates(rows: seq<Row>, wanted: Option<set<(string, string)>>): (cs: seq<Candidate>) {
    Sorting.Sorted(ORDER, Collected(rows, |rows|, wanted))
  }

  method FindCandidates(rows: seq<Row>, wanted: Option<set<(string, string)>>) returns (cs: seq<Candidate>)
    ensures cs == Candidates(rows, wanted)
    ensures Sorting.Ordered(ORDER, cs)
    ensures forall c :: c in cs <==> c.index < |rows| && CandidateAt(rows, c.index, wanted) == Some(c)
  {
    hide CandidateAt;
    var found: seq<Candidate> := [];
    var i := 0;
    while i < |rows|
      invariant 0 <= i <= |rows| && found == Collected(rows, i, wanted)
    {
      var c := CandidateAt(rows, i, wanted);
      if c.Some? { found := found + [c.value]; }
      i := i + 1;
    }
    cs := Sorting.Sort(ORDER, found);
    EarlierIsAnOrder();
    Sorting.SortLaw(ORDER, found);
    forall c
      ensures c in cs <==> c.index < |rows| && CandidateAt(rows, c.index, wanted) == Some(c)
    {
      CandidatesLaw(rows, wanted, c);
    }
  }

  lemma {:induction false} CollectedLaw(rows: seq<Row>, n: nat, wanted: Option<set<(string, string)>>, c: Candidate)
    requires n <= |rows|
    ensures c in Collected(rows, n, wanted) <==> c.index < n && CandidateAt(rows, c.index, wanted) == Some(c)
  {
    hide CandidateAt;
    if n > 0 {
      var last := CandidateAt(rows, n - 1, wanted);
      CollectedLaw(rows, n - 1, wanted, c);
      IndexOfCandidate(rows, n - 1, wanted);
      assert c in Collected(rows, n, wanted) <==> c in Collected(rows, n - 1, wanted) || last == Some(c);
    }
  }

  lemma IndexOfCandidate(rows: seq<Row>, i: nat, wanted: Option<set<(string, string)>>)
    requires i < |rows|
    ensures var c := CandidateAt(rows, i, wanted);
            c.Some? ==> c.value.index == i && c.value.row == rows[i] && rows[i].status == CLOSED
  {
    hide CivilTime.ParseIsoMs, CivilTime.CloseTimeMs;
  }

  lemma CandidatesLaw(rows: seq<Row>, wanted: Option<set<(string, string)>>, c: Candidate)
    ensures c in Candidates(rows, wanted) <==> c.index < |rows| && CandidateAt(rows, c.index, wanted) == Some(c)
  {
    hide CandidateAt;
    var found := Collected(rows, |rows|, wanted);
    EarlierIsAnOrder();
    Sorting.SortLaw(ORDER, found);
    CollectedLaw(rows, |rows|, wanted, c);
    assert c in found <==> c in multiset(found);
    assert c in Candidates(rows, wanted) <==> c in multiset(Candidates(rows, wanted));
  }

  // ---- the verdict on one candidate ---------------------------------------

  /** Equal as decimals, where both parse. */
  predicate SameValues(a: Values, b: Values) {
    && a.open.Some? && a.open == b.open && a.high.Some? && a.high == b.high && a.low.Some? && a.low == b.low
    && a.close.Some? && a.close == b.close && a.volume.Some? && a.volume == b.volume
  }

  function FirstMatch(entries: seq<Entry>, stored: Values): (e: Option<Entry>) {
    if entries == [] then None else if SameValues(entries[0].store, stored) then Some(entries[0]) else FirstMatch(entries[1..], stored)
  }

  /** The replacement, or why there is none: live first, then the evidence whose stored
      values are the ones in the row now. */
  function Replacement(w: World, c: Candidate): (r: Result<(Values, Source), Verdict>) {
    var live := w.live(c.row.symbol, c.row.timeframe, c.openMs);
    var entries := w.evidence(c.row.symbol, c.row.timeframe, c.openMs);
    var matched := FirstMatch(entries, c.row.values);
    if live.Some? then Ok((live.value, VENUE_LIVE))
    else if matched.Some? then
      match matched.value.parsed
      case Unparseable => Err(REFUSED_PARSE)
      case ParsedBar(openMs, values) =>
        if openMs != Some(c.openMs) then Err(REFUSED_EVIDENCE_MISMATCH)
        else Ok((values, EVIDENCE_FILE(matched.value.basename)))
    else if entries != [] then Err(REFUSED_EVIDENCE_MISMATCH)
    else Err(UNREPAIRABLE_VENUE_WINDOW_PASSED)
  }

  function Law(openMs: nat, v: Values): (r: Option<KlineWalk.Violation>) {
    KlineWalk.OhlcViolation(KlineWalk.Bar(openMs, KlineWalk.Ohlc(v.open, v.high, v.low, v.close), ""))
  }

  function Judged(w: World, c: Candidate): (v: Verdict) {
    match Replacement(w, c)
    case Err(verdict) => verdict
    case Ok((values, source)) =>
      var violation := Law(c.openMs, values);
      if violation.Some? then REFUSED_OHLC(violation.value)
      else if SameValues(c.row.values, values) then VERIFIED_CLOSED
      else WILL_CORRECT(values, source)
  }

  predicate StillOpen(c: Candidate, now: int) { c.closeMs > now - SKEW_MS }

  function VerdictOn(w: World, c: Candidate, now: int): (v: Verdict) { if StillOpen(c, now) then SKIPPED_STILL_OPEN else Judged(w, c) }

  /** Corrections only ever put a bar that satisfies the OHLC law in place of a different one. */
  lemma CorrectionsAreLawful(w: World, c: Candidate, now: int)
    ensures VerdictOn(w, c, now).WILL_CORRECT? ==>
              Law(c.openMs, VerdictOn(w, c, now).values) == None && !SameValues(c.row.values, VerdictOn(w, c, now).values) && !StillOpen(c, now)
  {
    hide Law, SameValues, FirstMatch;
  }

  // ---- the store ----------------------------------------------------------

  /** The frozen correction: the original stays and is superseded, the new row is added. */
  function Corrected(rows: seq<Row>, i: nat, values: Values, createdAt: string): (r: seq<Row>)
    requires i < |rows|
  {
    rows[i := rows[i].(status := SUPERSEDED)] + [rows[i].(values := values, createdAt := createdAt, status := CORRECTED)]
  }

  class RawStore {
    var rows: seq<Row>

    constructor (rows: seq<Row>)
      ensures this.rows == rows
    {
      this.rows := rows;
    }

    /** Both changes or, when the store fails, neither. */
    method CorrectRaw(i: nat, values: Values, createdAt: string, fails: bool) returns (ok: bool)
      requires i < |rows|
      modifies this
      ensures rows == if fails then old(rows) else Corrected(old(rows), i, values, createdAt)
      ensures ok == !fails
    {
      if fails { return false; }
      var original := rows[i];
      rows := rows[i := original.(status := SUPERSEDED)];
      rows := rows + [original.(values := values, createdAt := createdAt, status := CORRECTED)];
      return true;
    }
  }

  predicate Repaired(w: World, cs: seq<Candidate>, now: int, i: nat) {
    exists k :: 0 <= k < |cs| && cs[k].index == i && VerdictOn(w, cs[k], now).WILL_CORRECT?
  }

  /** The row a correction adds: the candidate's own, with the verdict's values. */
  function CorrectedRow(c: Candidate, values: Values, createdAt: string): (r: Row) {
    c.row.(values := values, createdAt := createdAt, status := CORRECTED)
  }

  /** The rows a run adds, one for each correction, in the order of the candidates. */
  function Additions(w: World, cs: seq<Candidate>, now: int, stamp: Candidate -> string): (rows: seq<Row>) {
    if cs == [] then []
    else
      var c := cs[|cs| - 1];
      var v := VerdictOn(w, c, now);
      Additions(w, cs[..|cs| - 1], now, stamp) + (if v.WILL_CORRECT? then [CorrectedRow(c, v.values, stamp(c))] else [])
  }

  function Superseded(w: World, cs: seq<Candidate>, now: int, rows: seq<Row>): (r: seq<Row>)
    ensures |r| == |rows|
  {
    seq(|rows|, i requires 0 <= i < |rows| => if Repaired(w, cs, now, i) then rows[i].(status := SUPERSEDED) else rows[i])
  }

  /** What a run over these candidates leaves of a store: exactly the rows to correct are
      superseded, and behind them stands exactly one corrected row for each. */
  function RepairedRows(w: World, cs: seq<Candidate>, now: int, stamp: Candidate -> string, rows: seq<Row>): (r: seq<Row>) {
    Superseded(w, cs, now, rows) + Additions(w, cs, now, stamp)
  }

  lemma RepairedStep(w: World, cs: seq<Candidate>, now: int, c: Candidate, i: nat)
    ensures Repaired(w, cs + [c], now, i) <==> Repaired(w, cs, now, i) || (c.index == i && VerdictOn(w, c, now).WILL_CORRECT?)
  {
    hide VerdictOn;
    var ds := cs + [c];
    assert ds[|cs|] == c;
    if Repaired(w, cs, now, i) {
      var k :| 0 <= k < |cs| && cs[k].index == i && VerdictOn(w, cs[k], now).WILL_CORRECT?;
      assert ds[k] == cs[k];
    }
  }

  /** The candidates of a run are rows of the store it began with. */
  predicate Stand(cs: seq<Candidate>, rows: seq<Row>) {
    forall k :: 0 <= k < |cs| ==> cs[k].index < |rows| && rows[cs[k].index] == cs[k].row
  }

  predicate DistinctRows(cs: seq<Candidate>) { forall i, j :: 0 <= i < j < |cs| ==> cs[i].index != cs[j].index }

  lemma OneMoreRepair(w: World, cs: seq<Candidate>, now: int, stamp: Candidate -> string, rows: seq<Row>, c: Candidate)
    requires Stand(cs + [c], rows) && DistinctRows(cs + [c])
    ensures var v, mid := VerdictOn(w, c, now), RepairedRows(w, cs, now, stamp, rows);
            && c.index < |mid|
            && RepairedRows(w, cs + [c], now, stamp, rows)
            == if v.WILL_CORRECT? then Corrected(mid, c.index, v.values, stamp(c)) else mid
  {
    hide VerdictOn;
    var ds, v := cs + [c], VerdictOn(w, c, now);
    assert ds[..|cs|] == cs && ds[|cs|] == c;
    forall i: nat
      ensures Repaired(w, ds, now, i) <==> Repaired(w, cs, now, i) || (c.index == i && v.WILL_CORRECT?)
    {
      RepairedStep(w, cs, now, c, i);
    }
    assert !Repaired(w, cs, now, c.index) by { NotYetRepaired(w, cs, now, c); }
    hide Repaired;
    var was, marked := Superseded(w, cs, now, rows), Superseded(w, ds, now, rows);
    var mark := c.row.(status := SUPERSEDED);
    assert was[c.index] == c.row;
    if v.WILL_CORRECT? {
      assert marked == was[c.index := mark];
      assert (was + Additions(w, cs, now, stamp))[c.index := mark] == marked + Additions(w, cs, now, stamp);
    } else {
      assert marked == was;
    }
  }

  lemma NotYetRepaired(w: World, cs: seq<Candidate>, now: int, c: Candidate)
    requires DistinctRows(cs + [c])
    ensures !Repaired(w, cs, now, c.index)
  {
    hide VerdictOn;
    var ds := cs + [c];
    assert ds[|cs|] == c && forall k :: 0 <= k < |cs| ==> ds[k] == cs[k];
  }

  // ---- a whole run --------------------------------------------------------

  datatype Counts = Counts(verified: nat, corrected: nat, unrepairable: nat, refused: nat, skipped: nat)

  predicate IsRefused(v: Verdict) { v.REFUSED_OHLC? || v.REFUSED_EVIDENCE_MISMATCH? || v.REFUSED_PARSE? }

  function Tally(vs: seq<Verdict>): (n: Counts) {
    if vs == [] then Counts(0, 0, 0, 0, 0)
    else
      var n, v := Tally(vs[..|vs| - 1]), vs[|vs| - 1];
      Counts(
        n.verified + if v.VERIFIED_CLOSED? then 1 else 0,
        n.corrected + if v.WILL_CORRECT? then 1 else 0,
        n.unrepairable + if v.UNREPAIRABLE_VENUE_WINDOW_PASSED? then 1 else 0,
        n.refused + if IsRefused(v) then 1 else 0,
        n.skipped + if v.SKIPPED_STILL_OPEN? then 1 else 0)
  }

  /** The buckets partition the report. */
  lemma {:induction false} BucketsPartition(vs: seq<Verdict>)
    ensures var n := Tally(vs); n.verified + n.corrected + n.unrepairable + n.refused + n.skipped == |vs|
  {
    if vs != [] { BucketsPartition(vs[..|vs| - 1]); }
  }

  function Verdicts(w: World, cs: seq<Candidate>, now: int): (vs: seq<Verdict>) {
    seq(|cs|, i requires 0 <= i < |cs| => VerdictOn(w, cs[i], now))
  }

  /** The candidates the venue is asked about. */
  function Asked(cs: seq<Candidate>, now: int): (r: seq<Candidate>) {
    if cs == [] then [] else Asked(cs[..|cs| - 1], now) + (if StillOpen(cs[|cs| - 1], now) then [] else [cs[|cs| - 1]])
  }

  /** A bar still open is never asked for. */
  lemma {:induction false} OpenBarsAreNotAsked(cs: seq<Candidate>, now: int, c: Candidate)
    ensures c in Asked(cs, now) <==> c in cs && !StillOpen(c, now)
  {
    if cs != [] {
      var front, last := cs[..|cs| - 1], cs[|cs| - 1];
      OpenBarsAreNotAsked(front, now, c);
      assert cs == front + [last];
    }
  }

  /** A run reports on every candidate, or the store fails at one of its corrections. */
  datatype Outcome = Reported(report: seq<Verdict>, counts: Counts) | StoreFailed(at: nat)

  /** The first correction the store fails at. */
  predicate FailsAt(w: World, cs: seq<Candidate>, now: int, fails: Candidate -> bool, n: nat) {
    n < |cs| && VerdictOn(w, cs[n], now).WILL_CORRECT? && fails(cs[n]) && NoneFails(w, cs[..n], now, fails)
  }

  predicate NoneFails(w: World, cs: seq<Candidate>, now: int, fails: Candidate -> bool) {
    forall k :: 0 <= k < |cs| && VerdictOn(w, cs[k], now).WILL_CORRECT? ==> !fails(cs[k])
  }

  /** Finds every candidate and repairs it, or says what a repair would do. */
  method RunRepair(store: RawStore, w: World, apply: bool, wanted: Option<set<(string, string)>>, now: int,
                   stamp: Candidate -> string, fails: Candidate -> bool)
      returns (outcome: Outcome, fetched: seq<Candidate>)
    modifies store
    ensures var cs := Candidates(old(store.rows), wanted);
            match outcome
            case Reported(report, counts) =>
              && report == Verdicts(w, cs, now) && counts == Tally(report) && fetched == Asked(cs, now)
              && (apply ==> NoneFails(w, cs, now, fails))
              && store.rows == if apply then RepairedRows(w, cs, now, stamp, old(store.rows)) else old(store.rows)
            case StoreFailed(n) =>
              && apply && FailsAt(w, cs, now, fails, n) && fetched == Asked(cs[..n + 1], now)
              && store.rows == RepairedRows(w, cs[..n], now, stamp, old(store.rows))
  {
    hide CandidateAt, Judged, RepairedRows, Candidates, Tally, Asked, NoneFails, Stand, DistinctRows;
    ghost var before := store.rows;
    var cs := FindCandidates(store.rows, wanted);
    fetched := [];
    var report: seq<Verdict>, counts := [], Counts(0, 0, 0, 0, 0);
    NothingDone(w, now, stamp, fails, before);
    CandidatesStand(before, wanted);
    var i := 0;
    while i < |cs|
      invariant 0 <= i <= |cs| && report == Verdicts(w, cs[..i], now) && counts == Tally(report) && fetched == Asked(cs[..i], now)
      invariant store.rows == if apply then RepairedRows(w, cs[..i], now, stamp, before) else before
      invariant apply ==> NoneFails(w, cs[..i], now, fails)
    {
      var c := cs[i];
      var v: Verdict;
      assert cs[..i + 1] == cs[..i] + [c];
      if c.closeMs > now - SKEW_MS {
        v := SKIPPED_STILL_OPEN;
      } else {
        fetched := fetched + [c];
        v := Judged(w, c);
      }
      AskedStep(cs[..i], c, now);
      if apply {
        StandUpTo(cs, before, i + 1);
        OneMoreRepair(w, cs[..i], now, stamp, before, c);
        FailStep(w, cs[..i], now, fails, c);
        if v.WILL_CORRECT? {
          var ok := store.CorrectRaw(c.index, v.values, stamp(c), fails(c));
          if !ok { return StoreFailed(i), fetched; }
        }
      }
      TallyStep(report, v);
      counts := Counts(
        counts.verified + if v.VERIFIED_CLOSED? then 1 else 0,
        counts.corrected + if v.WILL_CORRECT? then 1 else 0,
        counts.unrepairable + if v.UNREPAIRABLE_VENUE_WINDOW_PASSED? then 1 else 0,
        counts.refused + if IsRefused(v) then 1 else 0,
        counts.skipped + if v.SKIPPED_STILL_OPEN? then 1 else 0);
      report := report + [v];
      i := i + 1;
    }
    assert cs[..i] == cs;
    outcome := Reported(report, counts);
  }

  lemma NothingDone(w: World, now: int, stamp: Candidate -> string, fails: Candidate -> bool, rows: seq<Row>)
    ensures RepairedRows(w, [], now, stamp, rows) == rows && Tally([]) == Counts(0, 0, 0, 0, 0) && Asked([], now) == []
    ensures NoneFails(w, [], now, fails)
  {}

  lemma FailStep(w: World, cs: seq<Candidate>, now: int, fails: Candidate -> bool, c: Candidate)
    ensures NoneFails(w, cs + [c], now, fails) <==> NoneFails(w, cs, now, fails) && !(VerdictOn(w, c, now).WILL_CORRECT? && fails(c))
  {
    hide VerdictOn;
    var ds := cs + [c];
    assert ds[|cs|] == c && forall k :: 0 <= k < |cs| ==> ds[k] == cs[k];
  }

  /** The candidates of a store stand in it, each for a row of its own. */
  lemma CandidatesStand(rows: seq<Row>, wanted: Option<set<(string, string)>>)
    ensures var cs := Candidates(rows, wanted); Stand(cs, rows) && DistinctRows(cs)
  {
    hide CandidateAt, Candidates;
    var cs := Candidates(rows, wanted);
    forall k | 0 <= k < |cs|
      ensures cs[k].index < |rows| && rows[cs[k].index] == cs[k].row
    {
      assert cs[k] in cs;
      CandidatesLaw(rows, wanted, cs[k]);
      IndexOfCandidate(rows, cs[k].index, wanted);
    }
    CandidatesDistinct(rows, wanted);
  }

  lemma CandidatesDistinct(rows: seq<Row>, wanted: Option<set<(string, string)>>)
    ensures DistinctRows(Candidates(rows, wanted))
  {
    hide CandidateAt;
    var found := Collected(rows, |rows|, wanted);
    EarlierIsAnOrder();
    Sorting.SortLaw(ORDER, found);
    CollectedOnce(rows, |rows|, wanted);
    var cs := Candidates(rows, wanted);
    hide Collected, Candidates;
    forall i, j | 0 <= i < j < |cs|
      ensures cs[i].index != cs[j].index
    {
      if cs[i] == cs[j] { TwiceInMultiset(cs, i, j); }
      assert cs[i] in cs && cs[j] in cs;
      CandidatesLaw(rows, wanted, cs[i]);
      CandidatesLaw(rows, wanted, cs[j]);
    }
  }

  lemma TwiceInMultiset(cs: seq<Candidate>, i: nat, j: nat)
    requires i < j < |cs| && cs[i] == cs[j]
    ensures multiset(cs)[cs[i]] >= 2
  {
    assert cs == cs[..j] + cs[j..] && cs[i] in multiset(cs[..j]) && cs[i] in multiset(cs[j..]) by {
      assert cs[..j][i] == cs[i] && cs[j..][0] == cs[i];
    }
  }

  lemma {:induction false} CollectedOnce(rows: seq<Row>, n: nat, wanted: Option<set<(string, string)>>)
    requires n <= |rows|
    ensures forall c :: multiset(Collected(rows, n, wanted))[c] <= 1
  {
    hide CandidateAt;
    if n > 0 {
      var front, last := Collected(rows, n - 1, wanted), CandidateAt(rows, n - 1, wanted);
      CollectedOnce(rows, n - 1, wanted);
      if last.Some? {
        CollectedLaw(rows, n - 1, wanted, last.value);
        IndexOfCandidate(rows, n - 1, wanted);
        assert last.value !in multiset(front);
        assert multiset(front + [last.value]) == multiset(front) + multiset{last.value};
      } else {
        assert front + [] == front;
      }
    }
  }

  lemma StandUpTo(cs: seq<Candidate>, rows: seq<Row>, n: nat)
    requires Stand(cs, rows) && DistinctRows(cs) && n <= |cs|
    ensures Stand(cs[..n], rows) && DistinctRows(cs[..n])
  {}

  lemma TallyStep(vs: seq<Verdict>, v: Verdict)
    ensures var n := Tally(vs);
            Tally(vs + [v]) == Counts(
              n.verified + if v.VERIFIED_CLOSED? then 1 else 0,
              n.corrected + if v.WILL_CORRECT? then 1 else 0,
              n.unrepairable + if v.UNREPAIRABLE_VENUE_WINDOW_PASSED? then 1 else 0,
              n.refused + if IsRefused(v) then 1 else 0,
              n.skipped + if v.SKIPPED_STILL_OPEN? then 1 else 0)
  {
    assert (vs + [v])[..|vs|] == vs;
  }

  lemma AskedStep(cs: seq<Candidate>, c: Candidate, now: int)
    ensures Asked(cs + [c], now) == Asked(cs, now) + (if StillOpen(c, now) then [] else [c])
  {
    assert (cs + [c])[..|cs|] == cs;
  }

  // ---- main results -------------------------------------------------------

  /** The rows an applied run supersedes are exactly those the dry run said it would
      correct, and none of them belongs to a bar still open; and the rows it adds are
      exactly the verdicts' values for those bars, in the order of the report. */
  lemma DryRunPredicts(w: World, rows: seq<Row>, wanted: Option<set<(string, string)>>, now: int, stamp: Candidate -> string)
    ensures var cs, vs := Candidates(rows, wanted), Verdicts(w, Candidates(rows, wanted), now);
            var after := RepairedRows(w, cs, now, stamp, rows);
            && |after| == |rows| + Tally(vs).corrected
            && (forall i :: 0 <= i < |rows| ==>
                  (after[i] != rows[i] <==> exists k :: 0 <= k < |cs| && cs[k].index == i && vs[k].WILL_CORRECT? && !StillOpen(cs[k], now))
                  && (after[i] == rows[i] || after[i] == rows[i].(status := SUPERSEDED)))
            && (forall k :: 0 <= k < |cs| && vs[k].WILL_CORRECT? ==>
                  var at := |rows| + Tally(vs[..k]).corrected;
                  at < |after| && after[at] == CorrectedRow(cs[k], vs[k].values, stamp(cs[k])))
  {
    hide CandidateAt, Judged, Candidates, Tally;
    var cs, vs := Candidates(rows, wanted), Verdicts(w, Candidates(rows, wanted), now);
    AdditionsCounted(w, cs, now, stamp);
    CandidatesStand(rows, wanted);
    forall i | 0 <= i < |rows|
      ensures Superseded(w, cs, now, rows)[i] != rows[i]
         <==> exists k :: 0 <= k < |cs| && cs[k].index == i && vs[k].WILL_CORRECT? && !StillOpen(cs[k], now)
    {
      WhatIsSuperseded(w, rows, wanted, now, i);
    }
    forall k | 0 <= k < |cs| && vs[k].WILL_CORRECT?
      ensures var at := Tally(vs[..k]).corrected;
              at < |Additions(w, cs, now, stamp)| && Additions(w, cs, now, stamp)[at] == CorrectedRow(cs[k], vs[k].values, stamp(cs[k]))
    {
      AdditionAt(w, cs, now, stamp, k);
    }
  }

  lemma WhatIsSuperseded(w: World, rows: seq<Row>, wanted: Option<set<(string, string)>>, now: int, i: nat)
    requires i < |rows|
    ensures var cs, vs := Candidates(rows, wanted), Verdicts(w, Candidates(rows, wanted), now);
            Superseded(w, cs, now, rows)[i] != rows[i] <==>
              exists k :: 0 <= k < |cs| && cs[k].index == i && vs[k].WILL_CORRECT? && !StillOpen(cs[k], now)
  {
    hide CandidateAt, Judged, Candidates;
    var cs, vs := Candidates(rows, wanted), Verdicts(w, Candidates(rows, wanted), now);
    if Repaired(w, cs, now, i) {
      var k :| 0 <= k < |cs| && cs[k].index == i && VerdictOn(w, cs[k], now).WILL_CORRECT?;
      assert cs[k] in cs && vs[k] == VerdictOn(w, cs[k], now);
      CandidatesLaw(rows, wanted, cs[k]);
      IndexOfCandidate(rows, i, wanted);
    }
  }

  lemma {:induction false} AdditionsCounted(w: World, cs: seq<Candidate>, now: int, stamp: Candidate -> string)
    ensures |Additions(w, cs, now, stamp)| == Tally(Verdicts(w, cs, now)).corrected
  {
    hide VerdictOn;
    if cs != [] {
      AdditionsCounted(w, cs[..|cs| - 1], now, stamp);
      assert Verdicts(w, cs, now)[..|cs| - 1] == Verdicts(w, cs[..|cs| - 1], now);
    }
  }

  /** The correction of the k-th candidate stands behind those of the earlier ones. */
  lemma {:induction false} AdditionAt(w: World, cs: seq<Candidate>, now: int, stamp: Candidate -> string, k: nat)
    requires k < |cs| && VerdictOn(w, cs[k], now).WILL_CORRECT?
    ensures var at := Tally(Verdicts(w, cs, now)[..k]).corrected;
            at < |Additions(w, cs, now, stamp)|
            && Additions(w, cs, now, stamp)[at] == CorrectedRow(cs[k], VerdictOn(w, cs[k], now).values, stamp(cs[k]))
    decreases |cs|
  {
    hide VerdictOn, Tally;
    var front := cs[..|cs| - 1];
    assert Verdicts(w, cs, now)[..|front|] == Verdicts(w, front, now);
    assert Verdicts(w, cs, now)[..k] == Verdicts(w, front, now)[..k];
    AdditionsCounted(w, front, now, stamp);
    if k < |front| {
      AdditionAt(w, front, now, stamp, k);
    } else {
      assert Verdicts(w, front, now)[..k] == Verdicts(w, front, now);
    }
  }

  lemma {:induction false} AddedAreCorrected(w: World, cs: seq<Candidate>, now: int, stamp: Candidate -> string, i: nat)
    requires i < |Additions(w, cs, now, stamp)|
    ensures Additions(w, cs, now, stamp)[i].status == CORRECTED
  {
    hide VerdictOn;
    if cs != [] && i < |Additions(w, cs[..|cs| - 1], now, stamp)| { AddedAreCorrected(w, cs[..|cs| - 1], now, stamp, i); }
  }

  /** What is left to look at after a run, whole or cut short after `n` candidates, is what
      it was to look at and did not correct. */
  lemma CandidatesAfter(w: World, rows: seq<Row>, wanted: Option<set<(string, string)>>, now: int, stamp: Candidate -> string, n: nat, c: Candidate)
    requires n <= |Candidates(rows, wanted)|
    ensures var done := Candidates(rows, wanted)[..n];
            c in Candidates(RepairedRows(w, done, now, stamp, rows), wanted) <==>
              c in Candidates(rows, wanted) && !(c in done && VerdictOn(w, c, now).WILL_CORRECT?)
  {
    hide CandidateAt, VerdictOn, Candidates, RepairedRows;
    var done := Candidates(rows, wanted)[..n];
    var after := RepairedRows(w, done, now, stamp, rows);
    CandidatesLaw(rows, wanted, c);
    CandidatesLaw(after, wanted, c);
    RepairedShape(w, done, now, stamp, rows);
    if c.index < |rows| {
      IndexOfCandidate(rows, c.index, wanted);
      IndexOfCandidate(after, c.index, wanted);
      SameCandidate(rows, after, wanted, c.index);
      RepairedAre(w, rows, wanted, now, n, c);
    } else if c.index < |after| {
      IndexOfCandidate(after, c.index, wanted);
    }
  }

  lemma RepairedShape(w: World, cs: seq<Candidate>, now: int, stamp: Candidate -> string, rows: seq<Row>)
    ensures var after := RepairedRows(w, cs, now, stamp, rows);
            && |after| >= |rows|
            && (forall i :: 0 <= i < |rows| ==>
                  after[i] == if Repaired(w, cs, now, i) then rows[i].(status := SUPERSEDED) else rows[i])
            && (forall i :: |rows| <= i < |after| ==> after[i].status == CORRECTED)
  {
    hide Repaired, Additions;
    var added := Additions(w, cs, now, stamp);
    forall i | 0 <= i < |added|
      ensures added[i].status == CORRECTED
    {
      AddedAreCorrected(w, cs, now, stamp, i);
    }
  }

  /** Whether a row is a candidate is seen from that row alone. */
  lemma SameCandidate(rows: seq<Row>, after: seq<Row>, wanted: Option<set<(string, string)>>, i: nat)
    requires i < |rows| <= |after|
    ensures after[i] == rows[i] ==> CandidateAt(after, i, wanted) == CandidateAt(rows, i, wanted)
  {
    hide CivilTime.ParseIsoMs, CivilTime.CloseTimeMs;
  }

  lemma RepairedAre(w: World, rows: seq<Row>, wanted: Option<set<(string, string)>>, now: int, n: nat, c: Candidate)
    requires n <= |Candidates(rows, wanted)|
    ensures var done := Candidates(rows, wanted)[..n];
            c in Candidates(rows, wanted) ==> (Repaired(w, done, now, c.index) <==> c in done && VerdictOn(w, c, now).WILL_CORRECT?)
    ensures var done := Candidates(rows, wanted)[..n];
            Repaired(w, done, now, c.index) ==> c.index < |rows| && CandidateAt(rows, c.index, wanted).Some?
  {
    hide CandidateAt, VerdictOn, Candidates;
    var cs := Candidates(rows, wanted);
    var done := cs[..n];
    if Repaired(w, done, now, c.index) {
      var k :| 0 <= k < |done| && done[k].index == c.index && VerdictOn(w, done[k], now).WILL_CORRECT?;
      assert cs[k] in cs;
      CandidatesLaw(rows, wanted, cs[k]);
      CandidatesLaw(rows, wanted, c);
    }
    if c in done {
      var k :| 0 <= k < |done| && done[k] == c;
    }
  }

  /** A second applied run corrects nothing and leaves the store as it is. */
  lemma SecondRunIsIdle(w: World, rows: seq<Row>, wanted: Option<set<(string, string)>>, now: int, stamp: Candidate -> string, again: Candidate -> string)
    ensures var after := RepairedRows(w, Candidates(rows, wanted), now, stamp, rows);
            && RepairedRows(w, Candidates(after, wanted), now, again, after) == after
            && Tally(Verdicts(w, Candidates(after, wanted), now)).corrected == 0
  {
    hide VerdictOn, Candidates, RepairedRows;
    var all := Candidates(rows, wanted);
    var after := RepairedRows(w, all, now, stamp, rows);
    var cs := Candidates(after, wanted);
    assert all[..|all|] == all;
    forall k | 0 <= k < |cs|
      ensures !VerdictOn(w, cs[k], now).WILL_CORRECT?
    {
      assert cs[k] in cs;
      CandidatesAfter(w, rows, wanted, now, stamp, |all|, cs[k]);
    }
    NoCorrections(w, cs, now, again, after);
  }

  /** A run the store cut short after `n` candidates, and then a whole one, supersede what
      one whole run would have, and leave nothing to correct. */
  lemma RunResumes(w: World, rows: seq<Row>, wanted: Option<set<(string, string)>>, now: int, stamp: Candidate -> string, again: Candidate -> string, n: nat)
    requires n <= |Candidates(rows, wanted)|
    ensures var cs := Candidates(rows, wanted);
            var mid := RepairedRows(w, cs[..n], now, stamp, rows);
            var later := RepairedRows(w, Candidates(mid, wanted), now, again, mid);
            && |later| >= |rows| && later[..|rows|] == Superseded(w, cs, now, rows)
            && Tally(Verdicts(w, Candidates(later, wanted), now)).corrected == 0
  {
    hide VerdictOn, Candidates, RepairedRows, Repaired, CandidateAt;
    var cs := Candidates(rows, wanted);
    var mid := RepairedRows(w, cs[..n], now, stamp, rows);
    var rest := Candidates(mid, wanted);
    var later := RepairedRows(w, rest, now, again, mid);
    SecondRunIsIdle(w, mid, wanted, now, again, again);
    RepairedShape(w, cs[..n], now, stamp, rows);
    RepairedShape(w, rest, now, again, mid);
    forall i | 0 <= i < |rows|
      ensures later[i] == Superseded(w, cs, now, rows)[i]
    {
      RestIsRepaired(w, rows, wanted, now, stamp, n, i);
    }
  }

  lemma RestIsRepaired(w: World, rows: seq<Row>, wanted: Option<set<(string, string)>>, now: int, stamp: Candidate -> string, n: nat, i: nat)
    requires n <= |Candidates(rows, wanted)|
    ensures var cs := Candidates(rows, wanted);
            var mid := RepairedRows(w, cs[..n], now, stamp, rows);
            i < |rows| ==> (Repaired(w, cs, now, i) <==> Repaired(w, cs[..n], now, i) || Repaired(w, Candidates(mid, wanted), now, i))
  {
    hide VerdictOn, Candidates, RepairedRows, CandidateAt;
    var cs := Candidates(rows, wanted);
    var mid := RepairedRows(w, cs[..n], now, stamp, rows);
    var rest := Candidates(mid, wanted);
    if Repaired(w, cs, now, i) {
      var k :| 0 <= k < |cs| && cs[k].index == i && VerdictOn(w, cs[k], now).WILL_CORRECT?;
      assert cs[k] in cs;
      CandidatesAfter(w, rows, wanted, now, stamp, n, cs[k]);
      if cs[k] in cs[..n] {
        var m :| 0 <= m < n && cs[..n][m] == cs[k];
      } else {
        var m :| 0 <= m < |rest| && rest[m] == cs[k];
      }
    }
    if Repaired(w, cs[..n], now, i) {
      var k :| 0 <= k < n && cs[..n][k].index == i && VerdictOn(w, cs[..n][k], now).WILL_CORRECT?;
      assert cs[k].index == i;
    }
    if Repaired(w, rest, now, i) {
      var k :| 0 <= k < |rest| && rest[k].index == i && VerdictOn(w, rest[k], now).WILL_CORRECT?;
      assert rest[k] in rest;
      CandidatesAfter(w, rows, wanted, now, stamp, n, rest[k]);
      var m :| 0 <= m < |cs| && cs[m] == rest[k];
    }
  }

  lemma {:induction false} NoCorrections(w: World, cs: seq<Candidate>, now: int, stamp: Candidate -> string, rows: seq<Row>)
    requires forall k :: 0 <= k < |cs| ==> !VerdictOn(w, cs[k], now).WILL_CORRECT?
    ensures RepairedRows(w, cs, now, stamp, rows) == rows && Tally(Verdicts(w, cs, now)).corrected == 0
  {
    hide VerdictOn;
    NoAdditions(w, cs, now, stamp);
    AdditionsCounted(w, cs, now, stamp);
    assert Superseded(w, cs, now, rows) == rows;
  }

  lemma {:induction false} NoAdditions(w: World, cs: seq<Candidate>, now: int, stamp: Candidate -> string)
    requires forall k :: 0 <= k < |cs| ==> !VerdictOn(w, cs[k], now).WILL_CORRECT?
    ensures Additions(w, cs, now, stamp) == []
  {
    hide VerdictOn;
    if cs != [] { NoAdditions(w, cs[..|cs| - 1], now, stamp); }
  }
}
