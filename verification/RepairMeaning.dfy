/** What the repair of bars stored before they closed does, said of the world and the
    stored values themselves: who is looked at, what is put in whose place, and what every
    other verdict stands for. */
module RepairMeaning {
  import opened Wrappers
  import opened PartialRepair
  import CivilTime
  import KlineWalk

  predicate AllParse(v: Values) {
    v.open.Some? && v.high.Some? && v.low.Some? && v.close.Some? && v.volume.Some?
  }

  /** The four prices parse, and low and high bracket open and close. */
  predicate Bracketed(v: Values) {
    && v.open.Some? && v.high.Some? && v.low.Some? && v.close.Some?
    && v.low.value <= v.open.value <= v.high.value && v.low.value <= v.close.value <= v.high.value
  }

  /** The n-th entry is the first to prove the stored values, all five of them. */
  ghost predicate Proves(entries: seq<Entry>, n: int, stored: Values) {
    && 0 <= n < |entries| && AllParse(stored) && entries[n].store == stored
    && forall m :: 0 <= m < n ==> entries[m].store != stored
  }

  ghost predicate NoneProves(entries: seq<Entry>, stored: Values) {
    !AllParse(stored) || forall m :: 0 <= m < |entries| ==> entries[m].store != stored
  }

  function LiveBar(w: World, c: Candidate): (v: Option<Values>) { w.live(c.row.symbol, c.row.timeframe, c.openMs) }

  function EntriesFor(w: World, c: Candidate): (entries: seq<Entry>) { w.evidence(c.row.symbol, c.row.timeframe, c.openMs) }

  /** The entry that proves the row, when the venue has nothing live to say. */
  ghost predicate Evidence(w: World, c: Candidate, e: Entry) {
    LiveBar(w, c).None? && exists n :: Proves(EntriesFor(w, c), n, c.row.values) && EntriesFor(w, c)[n] == e
  }

  /** The venue's bar now or, without one, what the proving entry's venue row parses to at
      the candidate's own open. */
  ghost predicate Replaces(w: World, c: Candidate, v: Values, source: Source) {
    match source
    case VENUE_LIVE => LiveBar(w, c) == Some(v)
    case EVIDENCE_FILE(basename) => exists e :: Evidence(w, c, e) && e.basename == basename && e.parsed == ParsedBar(Some(c.openMs), v)
  }

  /** A bar closed for five seconds, for which there is a lawful replacement that is not
      what the row holds. */
  ghost predicate NeedsCorrection(w: World, c: Candidate, now: int, v: Values, source: Source) {
    && c.closeMs + 5000 <= now && Replaces(w, c, v, source) && Bracketed(v)
    && !(AllParse(v) && c.row.values == v)
  }

  // ---- one verdict --------------------------------------------------------

  lemma {:induction false} FirstMatchProves(entries: seq<Entry>, stored: Values)
    ensures FirstMatch(entries, stored).None? ==> NoneProves(entries, stored)
    ensures FirstMatch(entries, stored).Some? ==>
              exists n :: Proves(entries, n, stored) && entries[n] == FirstMatch(entries, stored).value
  {
    if entries != [] {
      if SameValues(entries[0].store, stored) {
        assert Proves(entries, 0, stored);
      } else {
        FirstMatchProves(entries[1..], stored);
        if FirstMatch(entries, stored).Some? {
          var n :| Proves(entries[1..], n, stored) && entries[1..][n] == FirstMatch(entries, stored).value;
          assert forall m :: 1 <= m <= n ==> entries[m] == entries[1..][m - 1];
          assert Proves(entries, n + 1, stored);
        } else if AllParse(stored) {
          assert forall m :: 1 <= m < |entries| ==> entries[m] == entries[1..][m - 1];
        }
      }
    }
  }

  lemma OneProves(entries: seq<Entry>, n: int, m: int, stored: Values)
    requires Proves(entries, n, stored)
    ensures Proves(entries, m, stored) ==> n == m
    ensures !NoneProves(entries, stored)
  {}

  lemma EvidenceIsFirstMatch(w: World, c: Candidate, e: Entry)
    ensures Evidence(w, c, e) <==> LiveBar(w, c).None? && FirstMatch(EntriesFor(w, c), c.row.values) == Some(e)
  {
    hide FirstMatch, NoneProves;
    var entries, stored := EntriesFor(w, c), c.row.values;
    FirstMatchProves(entries, stored);
    if Evidence(w, c, e) {
      var n :| Proves(entries, n, stored) && entries[n] == e;
      OneProves(entries, n, n, stored);
      var m :| Proves(entries, m, stored) && entries[m] == FirstMatch(entries, stored).value;
      OneProves(entries, n, m, stored);
    }
  }

  lemma LawIsBracketed(openMs: nat, v: Values)
    ensures Law(openMs, v).None? <==> Bracketed(v)
  {
    KlineWalk.OhlcLaw(KlineWalk.Bar(openMs, KlineWalk.Ohlc(v.open, v.high, v.low, v.close), ""));
  }

  lemma SameIsEqual(a: Values, b: Values)
    ensures SameValues(a, b) <==> AllParse(b) && a == b
  {}

  /** A candidate is corrected, with which values and from where, exactly when it needs it. */
  lemma WhenCorrected(w: World, c: Candidate, now: int, v: Values, source: Source)
    ensures VerdictOn(w, c, now) == WILL_CORRECT(v, source) <==> NeedsCorrection(w, c, now, v, source)
  {
    hide Law, SameValues, FirstMatch, Evidence, Bracketed, AllParse;
    LawIsBracketed(c.openMs, v);
    SameIsEqual(c.row.values, v);
    var matched := FirstMatch(EntriesFor(w, c), c.row.values);
    if matched.Some? { EvidenceIsFirstMatch(w, c, matched.value); }
    if source.EVIDENCE_FILE? && Replaces(w, c, v, source) {
      var e :| Evidence(w, c, e) && e.basename == source.basename && e.parsed == ParsedBar(Some(c.openMs), v);
      EvidenceIsFirstMatch(w, c, e);
    }
  }

  /** What each of the other verdicts stands for. */
  lemma WhatVerdictsMean(w: World, c: Candidate, now: int)
    ensures var v, entries := VerdictOn(w, c, now), EntriesFor(w, c);
            && (v.SKIPPED_STILL_OPEN? <==> now < c.closeMs + 5000)
            && (v.VERIFIED_CLOSED? <==>
                  c.closeMs + 5000 <= now && AllParse(c.row.values) && Bracketed(c.row.values)
                  && exists source :: Replaces(w, c, c.row.values, source))
            && (v.REFUSED_OHLC? <==>
                  c.closeMs + 5000 <= now && exists values, source :: Replaces(w, c, values, source) && !Bracketed(values))
            && (v.UNREPAIRABLE_VENUE_WINDOW_PASSED? <==> c.closeMs + 5000 <= now && LiveBar(w, c).None? && entries == [])
            && (v.REFUSED_PARSE? <==> c.closeMs + 5000 <= now && exists e :: Evidence(w, c, e) && e.parsed.Unparseable?)
            && (v.REFUSED_EVIDENCE_MISMATCH? <==>
                  c.closeMs + 5000 <= now && LiveBar(w, c).None? && entries != []
                  && (NoneProves(entries, c.row.values)
                      || exists e :: Evidence(w, c, e) && e.parsed.ParsedBar? && e.parsed.openMs != Some(c.openMs)))
  {
    hide Law, SameValues, FirstMatch, Evidence, Bracketed, AllParse, NoneProves, Replaces;
    var entries, stored := EntriesFor(w, c), c.row.values;
    var matched := FirstMatch(entries, stored);
    FirstMatchProves(entries, stored);
    if entries == [] { NothingMatches(stored); }
    forall e
      ensures Evidence(w, c, e) <==> LiveBar(w, c).None? && matched == Some(e)
    {
      EvidenceIsFirstMatch(w, c, e);
    }
    if matched.Some? {
      var n :| Proves(entries, n, stored) && entries[n] == matched.value;
      OneProves(entries, n, n, stored);
    }
    forall values, source
      ensures Replaces(w, c, values, source) <==> Replacement(w, c) == Ok((values, source))
    {
      ReplacesIsReplacement(w, c, values, source);
    }
    if Replacement(w, c).Ok? {
      var (values, source) := Replacement(w, c).value;
      assert Replaces(w, c, values, source);
      LawIsBracketed(c.openMs, values);
      SameIsEqual(stored, values);
    }
  }

  lemma NothingMatches(stored: Values)
    ensures FirstMatch([], stored).None?
  {}

  lemma ReplacesIsReplacement(w: World, c: Candidate, v: Values, source: Source)
    ensures Replaces(w, c, v, source) <==> Replacement(w, c) == Ok((v, source))
  {
    hide FirstMatch, Evidence;
    var matched := FirstMatch(EntriesFor(w, c), c.row.values);
    if matched.Some? { EvidenceIsFirstMatch(w, c, matched.value); }
    if source.EVIDENCE_FILE? && Replaces(w, c, v, source) {
      var e :| Evidence(w, c, e) && e.basename == source.basename && e.parsed == ParsedBar(Some(c.openMs), v);
      EvidenceIsFirstMatch(w, c, e);
    }
  }

  // ---- who is looked at ---------------------------------------------------

  /** A row with printed times and a known timeframe is looked at exactly when it is closed,
      wanted, and was written before its bar had closed for five seconds. */
  lemma WhoIsCandidate(rows: seq<Row>, i: nat, wanted: Option<set<(string, string)>>, open: nat, created: nat, span: CivilTime.Span)
    requires i < |rows| && CivilTime.Printable(open) && CivilTime.Printable(created)
    requires rows[i].asOf == CivilTime.MsToIso(open) && rows[i].createdAt == CivilTime.MsToIso(created)
    requires CivilTime.SpanOf(rows[i].timeframe) == Some(span)
    ensures var r, close := rows[i], CivilTime.CloseOf(open, span);
            CandidateAt(rows, i, wanted)
            == if r.status == CLOSED && (wanted.Some? ==> (r.symbol, r.timeframe) in wanted.value) && created < close + 5000
               then Some(Candidate(i, r, open, close)) else None
  {
    hide CivilTime.Printable, CivilTime.MsToIso, CivilTime.ParseIsoMs, CivilTime.CloseOf;
    CivilTime.IsoRoundTrip(open);
    CivilTime.IsoRoundTrip(created);
  }

  // ---- a whole run --------------------------------------------------------

  /** The row at `i` is looked at and needs these values. */
  ghost predicate RowNeeds(w: World, rows: seq<Row>, wanted: Option<set<(string, string)>>, now: int, c: Candidate, v: Values, source: Source) {
    && c.index < |rows| && CandidateAt(rows, c.index, wanted) == Some(c)
    && NeedsCorrection(w, c, now, v, source)
  }

  /** An applied run supersedes a row if and only if it needs a correction, and adds the
      corrected row with exactly those values; it adds no other row, and changes none. */
  lemma WhatARunCorrects(w: World, rows: seq<Row>, wanted: Option<set<(string, string)>>, now: int, stamp: Candidate -> string)
    ensures var after := RepairedRows(w, Candidates(rows, wanted), now, stamp, rows);
            && |after| >= |rows|
            && (forall i :: 0 <= i < |rows| ==>
                  after[i] == if exists c: Candidate, v, source :: c.index == i && RowNeeds(w, rows, wanted, now, c, v, source)
                              then rows[i].(status := SUPERSEDED) else rows[i])
            && (forall r :: r in after[|rows|..] <==>
                  exists c, v, source :: RowNeeds(w, rows, wanted, now, c, v, source)
                                         && r == c.row.(values := v, createdAt := stamp(c), status := CORRECTED))
  {
    hide CandidateAt, VerdictOn, Candidates, Repaired, NeedsCorrection, RowNeeds;
    var cs := Candidates(rows, wanted);
    RepairedShape(w, cs, now, stamp, rows);
    var after := RepairedRows(w, cs, now, stamp, rows);
    forall i | 0 <= i < |rows|
      ensures Repaired(w, cs, now, i) <==> exists c: Candidate, v, source :: c.index == i && RowNeeds(w, rows, wanted, now, c, v, source)
    {
      RepairedRowNeeds(w, rows, wanted, now, i);
    }
    assert after[|rows|..] == Additions(w, cs, now, stamp);
    forall r
      ensures r in after[|rows|..] <==>
                exists c, v, source :: RowNeeds(w, rows, wanted, now, c, v, source)
                                       && r == c.row.(values := v, createdAt := stamp(c), status := CORRECTED)
    {
      AddedRowNeeds(w, rows, wanted, now, stamp, r);
    }
  }

  lemma NeedsMeansCorrect(w: World, rows: seq<Row>, wanted: Option<set<(string, string)>>, now: int, c: Candidate, v: Values, source: Source)
    ensures RowNeeds(w, rows, wanted, now, c, v, source) <==>
              c in Candidates(rows, wanted) && VerdictOn(w, c, now) == WILL_CORRECT(v, source)
  {
    hide CandidateAt, VerdictOn, Candidates, NeedsCorrection;
    CandidatesLaw(rows, wanted, c);
    WhenCorrected(w, c, now, v, source);
  }

  lemma RepairedRowNeeds(w: World, rows: seq<Row>, wanted: Option<set<(string, string)>>, now: int, i: nat)
    ensures Repaired(w, Candidates(rows, wanted), now, i) <==>
              exists c: Candidate, v, source :: c.index == i && RowNeeds(w, rows, wanted, now, c, v, source)
  {
    hide CandidateAt, VerdictOn, Candidates, NeedsCorrection, RowNeeds;
    var cs := Candidates(rows, wanted);
    if Repaired(w, cs, now, i) {
      var k :| 0 <= k < |cs| && cs[k].index == i && VerdictOn(w, cs[k], now).WILL_CORRECT?;
      var verdict := VerdictOn(w, cs[k], now);
      NeedsMeansCorrect(w, rows, wanted, now, cs[k], verdict.values, verdict.source);
      assert RowNeeds(w, rows, wanted, now, cs[k], verdict.values, verdict.source);
    }
    if c: Candidate, v, source :| c.index == i && RowNeeds(w, rows, wanted, now, c, v, source) {
      NeedsMeansCorrect(w, rows, wanted, now, c, v, source);
      var k :| 0 <= k < |cs| && cs[k] == c;
      assert cs[k].index == i && VerdictOn(w, cs[k], now).WILL_CORRECT?;
    }
  }

  lemma AddedRowNeeds(w: World, rows: seq<Row>, wanted: Option<set<(string, string)>>, now: int, stamp: Candidate -> string, r: Row)
    ensures r in Additions(w, Candidates(rows, wanted), now, stamp) <==>
              exists c, v, source :: RowNeeds(w, rows, wanted, now, c, v, source)
                                     && r == c.row.(values := v, createdAt := stamp(c), status := CORRECTED)
  {
    hide CandidateAt, VerdictOn, Candidates, NeedsCorrection, RowNeeds;
    var cs := Candidates(rows, wanted);
    AdditionsAre(w, cs, now, stamp, r);
    if c :| c in cs && Adds(w, c, now, stamp, r) {
      var verdict := VerdictOn(w, c, now);
      NeedsMeansCorrect(w, rows, wanted, now, c, verdict.values, verdict.source);
      assert RowNeeds(w, rows, wanted, now, c, verdict.values, verdict.source);
    }
    if c, v, source :| RowNeeds(w, rows, wanted, now, c, v, source)
                       && r == c.row.(values := v, createdAt := stamp(c), status := CORRECTED) {
      NeedsMeansCorrect(w, rows, wanted, now, c, v, source);
      assert Adds(w, c, now, stamp, r);
    }
  }

  predicate Adds(w: World, c: Candidate, now: int, stamp: Candidate -> string, r: Row) {
    var v := VerdictOn(w, c, now);
    v.WILL_CORRECT? && r == c.row.(values := v.values, createdAt := stamp(c), status := CORRECTED)
  }

  lemma {:induction false} AdditionsAre(w: World, cs: seq<Candidate>, now: int, stamp: Candidate -> string, r: Row)
    ensures r in Additions(w, cs, now, stamp) <==> exists c :: c in cs && Adds(w, c, now, stamp, r)
  {
    hide VerdictOn;
    if cs != [] {
      var front, last := cs[..|cs| - 1], cs[|cs| - 1];
      AdditionsAre(w, front, now, stamp, r);
      assert cs == front + [last];
      assert (exists c :: c in cs && Adds(w, c, now, stamp, r)) <==>
             (exists c :: c in front && Adds(w, c, now, stamp, r)) || Adds(w, last, now, stamp, r);
    }
  }

  // ---- the counts ---------------------------------------------------------

  function CountWhere(vs: seq<Verdict>, p: Verdict -> bool): (n: nat) {
    if vs == [] then 0 else CountWhere(vs[..|vs| - 1], p) + (if p(vs[|vs| - 1]) then 1 else 0)
  }

  /** Each count is of the verdicts of its own kind. */
  lemma {:induction false} CountsMean(vs: seq<Verdict>)
    ensures var n := Tally(vs);
            && n.verified == CountWhere(vs, (v: Verdict) => v == VERIFIED_CLOSED)
            && n.corrected == CountWhere(vs, (v: Verdict) => v.WILL_CORRECT?)
            && n.unrepairable == CountWhere(vs, (v: Verdict) => v == UNREPAIRABLE_VENUE_WINDOW_PASSED)
            && n.refused == CountWhere(vs, (v: Verdict) => v.REFUSED_OHLC? || v == REFUSED_EVIDENCE_MISMATCH || v == REFUSED_PARSE)
            && n.skipped == CountWhere(vs, (v: Verdict) => v == SKIPPED_STILL_OPEN)
  {
    if vs != [] { CountsMean(vs[..|vs| - 1]); }
  }
}
