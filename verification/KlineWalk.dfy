/** The venue's bars, the OHLC hygiene law and the backward walk over a
    tail-aligned venue. */
module KlineWalk {
  import opened Wrappers
  import opened CivilTime

  const DEEP_START_MS := 1_577_836_800_000
  const PAGE_LIMIT := 1000

  /** A price the venue sent, None when it is not a finite number. */
  datatype Ohlc = NoFields | Ohlc(open: Option<real>, high: Option<real>, low: Option<real>, close: Option<real>)

  /** One row; `rest` stands for volume and the other columns, which no law reads. */
  datatype Bar = Bar(openMs: nat, ohlc: Ohlc, rest: string)

  datatype Violation =
    | NotParseable(field: string)
    | HighBelowMaxOpenClose
    | LowAboveMinOpenClose
    | HighBelowLow

  function Max(x: real, y: real): real { if x < y then y else x }

  function Min(x: real, y: real): real { if y < x then y else x }

  function OhlcViolation(bar: Bar): (r: Option<Violation>) {
    match bar.ohlc
    case NoFields => None
    case Ohlc(open, high, low, close) =>
      if open.None? then Some(NotParseable("open"))
      else if high.None? then Some(NotParseable("high"))
      else if low.None? then Some(NotParseable("low"))
      else if close.None? then Some(NotParseable("close"))
      else if high.value < Max(open.value, close.value) then Some(HighBelowMaxOpenClose)
      else if low.value > Min(open.value, close.value) then Some(LowAboveMinOpenClose)
      else if high.value < low.value then Some(HighBelowLow)
      else None
  }

  predicate Sane(bar: Bar) { OhlcViolation(bar).None? }

  /** A judged row is kept exactly when every price parses and the low and the high
      bracket the open and the close; the third geometric test can never fire. */
  lemma OhlcLaw(bar: Bar)
    requires bar.ohlc.Ohlc?
    ensures Sane(bar) <==>
            && bar.ohlc.open.Some? && bar.ohlc.high.Some? && bar.ohlc.low.Some? && bar.ohlc.close.Some?
            && bar.ohlc.low.value <= bar.ohlc.open.value <= bar.ohlc.high.value
            && bar.ohlc.low.value <= bar.ohlc.close.value <= bar.ohlc.high.value
    ensures OhlcViolation(bar) != Some(HighBelowLow)
  {
  }

  // ---- the venue ----------------------------------------------------------

  datatype Reply = Page(rows: seq<Bar>) | RateLimited | Refused(message: string)

  /** What the venue answers: call number, startTime, endTime. Nothing is assumed. */
  type Venue = (nat, int, int) -> Reply

  predicate AscendingBars(bars: seq<Bar>) {
    forall i, j :: 0 <= i < j < |bars| ==> bars[i].openMs < bars[j].openMs
  }

  /** The bars of `bars` opened at or before `end`, counted. */
  function OpenedBy(bars: seq<Bar>, end: int): (n: nat)
    requires AscendingBars(bars)
    ensures n <= |bars|
    ensures forall i :: 0 <= i < |bars| ==> (bars[i].openMs <= end <==> i < n)
  {
    if bars == [] then 0
    else if bars[|bars| - 1].openMs <= end then |bars|
    else OpenedBy(bars[..|bars| - 1], end)
  }

  predicate ClosedBy(bar: Bar, span: Span, end: int) { CloseOf(bar.openMs, span) <= end }

  /** A bar still open at `end` may be sent with any content; a closed one is final. */
  predicate Snapshot(row: Bar, bar: Bar, span: Span, end: int) {
    row.openMs == bar.openMs && (ClosedBy(bar, span, end) ==> row == bar)
  }

  /** `rows` are the last PAGE_LIMIT bars opened at or before `to`. */
  ghost predicate IsTail(rows: seq<Bar>, bars: seq<Bar>, span: Span, end: int, to: int)
    requires AscendingBars(bars)
  {
    var n := OpenedBy(bars, to);
    && |rows| == (if n < PAGE_LIMIT then n else PAGE_LIMIT)
    && forall i :: 0 <= i < |rows| ==> Snapshot(rows[i], bars[n - |rows| + i], span, end)
  }

  /** startTime is ignored; any call may instead fail. */
  ghost predicate TailAligned(venue: Venue, bars: seq<Bar>, span: Span, end: int) {
    && AscendingBars(bars)
    && forall k, start, to :: to <= end && venue(k, start, to).Page? ==> IsTail(venue(k, start, to).rows, bars, span, end, to)
  }

  // ---- one page with bounded retries --------------------------------------

  method FetchWithBackoff(venue: Venue, calls: nat, start: int, to: int, slots: nat) returns (reply: Reply, calls': nat)
    ensures calls < calls' <= calls + slots + 1
    ensures reply == venue(calls' - 1, start, to)
    ensures forall k :: calls <= k < calls' - 1 ==> venue(k, start, to).RateLimited?
    ensures reply.RateLimited? ==> calls' == calls + slots + 1
  {
    calls' := calls;
    var attempt := 0;
    while true
      invariant attempt <= slots && calls' == calls + attempt
      invariant forall k :: calls <= k < calls' ==> venue(k, start, to).RateLimited?
      decreases slots - attempt
    {
      reply := venue(calls', start, to);
      calls' := calls' + 1;
      if !reply.RateLimited? || attempt >= slots { return; }
      attempt := attempt + 1;
    }
  }

  // ---- one page into the history ------------------------------------------

  function Opens(rows: seq<Bar>): (s: set<nat>) { set r | r in rows :: r.openMs }

  function Insane(rows: seq<Bar>): (s: seq<Bar>) {
    if rows == [] then [] else
      var front := Insane(rows[..|rows| - 1]);
      if Sane(rows[|rows| - 1]) then front else front + [rows[|rows| - 1]]
  }

  /** What absorbing the rows so far has done. */
  ghost predicate Absorbed(rows: seq<Bar>, seen: set<nat>, seen': set<nat>, collected: map<nat, Bar>, collected': map<nat, Bar>) {
    && seen' == seen + Opens(rows)
    && (forall o :: o in collected ==> o in collected' && collected'[o] == collected[o])
    && (forall r :: r in rows && Sane(r) ==> r.openMs in collected')
    && (forall o :: o in collected' && o !in collected ==>
          collected'[o] in rows && Sane(collected'[o]) && collected'[o].openMs == o)
  }

  lemma AbsorbOne(rows: seq<Bar>, obs: Bar, seen: set<nat>, seen': set<nat>, collected: map<nat, Bar>, collected': map<nat, Bar>)
    requires Absorbed(rows, seen, seen', collected, collected')
    ensures Absorbed(rows + [obs], seen, seen' + {obs.openMs}, collected,
                     if !Sane(obs) || obs.openMs in collected' then collected' else collected'[obs.openMs := obs])
  {
    hide Sane;
  }

  /** The rows of one page: all seen, the insane ones dropped with evidence, the
      sane ones collected unless their open time already was. */
  method AbsorbPage(rows: seq<Bar>, seen: set<nat>, collected: map<nat, Bar>)
    returns (seen': set<nat>, collected': map<nat, Bar>, dropped: seq<Bar>, newAny: bool, oldest: nat)
    requires rows != []
    ensures Absorbed(rows, seen, seen', collected, collected')
    ensures newAny <==> exists r :: r in rows && r.openMs !in seen
    ensures (exists r :: r in rows && r.openMs == oldest) && forall r :: r in rows ==> oldest <= r.openMs
    ensures dropped == Insane(rows)
  {
    hide Sane, Absorbed;
    seen', collected', dropped, newAny, oldest := seen, collected, [], false, rows[0].openMs;
    assert Absorbed([], seen, seen, collected, collected) by { NothingAbsorbed(seen, collected); }
    var i := 0;
    while i < |rows|
      invariant 0 <= i <= |rows|
      invariant Absorbed(rows[..i], seen, seen', collected, collected')
      invariant seen' == seen + Opens(rows[..i])
      invariant newAny <==> exists r :: r in rows[..i] && r.openMs !in seen
      invariant exists r :: r in rows && r.openMs == oldest
      invariant forall r :: r in rows[..i] ==> oldest <= r.openMs
      invariant dropped == Insane(rows[..i])
    {
      var obs := rows[i];
      assert rows[..i + 1] == rows[..i] + [obs];
      assert rows[..i + 1][..i] == rows[..i];
      AbsorbOne(rows[..i], obs, seen, seen', collected, collected');
      if obs.openMs < oldest { oldest := obs.openMs; }
      if obs.openMs !in seen' {
        newAny := true;
      }
      seen' := seen' + {obs.openMs};
      if !Sane(obs) {
        dropped := dropped + [obs];
      } else if obs.openMs !in collected' {
        collected' := collected'[obs.openMs := obs];
      }
      i := i + 1;
    }
    assert rows[..|rows|] == rows;
  }

  lemma NothingAbsorbed(seen: set<nat>, collected: map<nat, Bar>)
    ensures Absorbed([], seen, seen, collected, collected)
  {
  }

  // ---- ascending list of a map --------------------------------------------

  lemma {:induction false} LeastBelow(s: set<nat>, k: nat) returns (m: nat)
    requires k in s
    ensures m in s && forall x :: x in s ==> m <= x
  {
    if x :| x in s && x < k { m := LeastBelow(s, x); } else { m := k; }
  }

  function Least(s: set<nat>): (m: nat)
    requires s != {}
    ensures m in s && forall x :: x in s ==> m <= x
  {
    assert exists m :: m in s && forall x :: x in s ==> m <= x by {
      var k :| k in s;
      var m := LeastBelow(s, k);
    }
    var m :| m in s && forall x :: x in s ==> m <= x;
    m
  }

  function ByOpenTime(collected: map<nat, Bar>): (bars: seq<Bar>)
    requires forall o :: o in collected ==> collected[o].openMs == o
    ensures AscendingBars(bars)
    ensures forall b :: b in bars <==> b.openMs in collected && collected[b.openMs] == b
    decreases |collected|
  {
    if collected == map[] then []
    else
      var o := Least(collected.Keys);
      var others := collected - {o};
      assert |others.Keys| == |collected.Keys - {o}| by { assert others.Keys == collected.Keys - {o}; }
      [collected[o]] + ByOpenTime(others)
  }

  // ---- the backward walk --------------------------------------------------

  datatype WalkOutcome = Walked(history: seq<Bar>) | Surfaced | FetchFailed(message: string)

  /** What a finished walk holds of the closed bars: every sane one from position
      `lo` on, where nothing before `lo` reaches the floor. */
  ghost predicate Complete(history: seq<Bar>, bars: seq<Bar>, span: Span, floor: int, end: int, lo: nat) {
    && AscendingBars(bars) && lo <= |bars|
    && (forall i :: 0 <= i < lo ==> bars[i].openMs < floor)
    && (forall i :: lo <= i < |bars| && bars[i].openMs <= end && ClosedBy(bars[i], span, end) && Sane(bars[i]) ==> bars[i] in history)
    && (forall b :: b in history ==> exists i :: lo <= i < |bars| && bars[i].openMs <= end && Snapshot(b, bars[i], span, end))
  }

  ghost predicate Covers(history: seq<Bar>, bars: seq<Bar>, span: Span, floor: int, end: int) {
    exists lo :: Complete(history, bars, span, floor, end, lo)
  }

  /** What the walk has taken in when the positions lo..hi have been paged. */
  ghost predicate SeenRight(seen: set<nat>, bars: seq<Bar>, lo: nat, hi: nat) {
    && lo <= hi <= |bars|
    && (forall i :: lo <= i < hi ==> bars[i].openMs in seen)
    && (forall o :: o in seen ==> exists i :: lo <= i < hi && bars[i].openMs == o)
  }

  ghost predicate CollectedRight(collected: map<nat, Bar>, bars: seq<Bar>, span: Span, end: int, lo: nat, hi: nat) {
    && lo <= hi <= |bars|
    && (forall i :: lo <= i < hi && ClosedBy(bars[i], span, end) && Sane(bars[i]) ==> bars[i].openMs in collected)
    && (forall o :: o in collected ==> exists i :: lo <= i < hi && Snapshot(collected[o], bars[i], span, end))
  }

  ghost predicate Paged(seen: set<nat>, collected: map<nat, Bar>, bars: seq<Bar>, span: Span, end: int, lo: nat, hi: nat) {
    SeenRight(seen, bars, lo, hi) && CollectedRight(collected, bars, span, end, lo, hi)
  }

  lemma DistinctOpens(bars: seq<Bar>, i: nat, j: nat)
    requires AscendingBars(bars) && i < |bars| && j < |bars| && i != j
    ensures bars[i].openMs != bars[j].openMs && (i < j ==> bars[i].openMs < bars[j].openMs)
  {
  }

  lemma SeenExtends(rows: seq<Bar>, seen: set<nat>, bars: seq<Bar>, span: Span, end: int, lo: nat, hi: nat)
    requires SeenRight(seen, bars, lo, hi) && |rows| <= lo
    requires forall i :: 0 <= i < |rows| ==> Snapshot(rows[i], bars[lo - |rows| + i], span, end)
    ensures SeenRight(seen + Opens(rows), bars, lo - |rows|, hi)
  {
    hide ClosedBy;
    var lo' := lo - |rows|;
    forall i | lo' <= i < hi ensures bars[i].openMs in seen + Opens(rows) {
      if i < lo {
        assert rows[i - lo'] in rows && Snapshot(rows[i - lo'], bars[lo' + (i - lo')], span, end);
      }
    }
    forall o | o in seen + Opens(rows) ensures exists i :: lo' <= i < hi && bars[i].openMs == o {
      if o !in seen {
        var k :| 0 <= k < |rows| && rows[k].openMs == o;
        assert Snapshot(rows[k], bars[lo' + k], span, end);
      }
    }
  }

  lemma CollectedExtends(rows: seq<Bar>, seen: set<nat>, collected: map<nat, Bar>, collected': map<nat, Bar>,
                         bars: seq<Bar>, span: Span, end: int, lo: nat, hi: nat)
    requires CollectedRight(collected, bars, span, end, lo, hi) && |rows| <= lo
    requires forall i :: 0 <= i < |rows| ==> Snapshot(rows[i], bars[lo - |rows| + i], span, end)
    requires Absorbed(rows, seen, seen + Opens(rows), collected, collected')
    ensures CollectedRight(collected', bars, span, end, lo - |rows|, hi)
  {
    hide ClosedBy, Sane, Opens;
    var lo' := lo - |rows|;
    forall i | lo' <= i < hi && ClosedBy(bars[i], span, end) && Sane(bars[i]) ensures bars[i].openMs in collected' {
      if i < lo {
        assert rows[i - lo'] in rows && Snapshot(rows[i - lo'], bars[lo' + (i - lo')], span, end);
      }
    }
    forall o | o in collected' ensures exists i :: lo' <= i < hi && Snapshot(collected'[o], bars[i], span, end) {
      if o in collected {
        var i :| lo <= i < hi && Snapshot(collected[o], bars[i], span, end);
      } else {
        var k :| 0 <= k < |rows| && rows[k] == collected'[o];
        assert Snapshot(collected'[o], bars[lo' + k], span, end);
      }
    }
  }


  /** Where the walk stands after paging the positions lo..hi of the history. */
  ghost predicate Standing(seen: set<nat>, collected: map<nat, Bar>, bars: seq<Bar>, span: Span, end: int,
                           lo: nat, hi: nat, walkEnd: int, prevFirst: Option<nat>) {
    && AscendingBars(bars) && hi == OpenedBy(bars, end)
    && Paged(seen, collected, bars, span, end, lo, hi) && OpenedBy(bars, walkEnd) == lo
    && (lo < hi ==> walkEnd == bars[lo].openMs - 1 && prevFirst == Some(bars[lo].openMs))
    && (lo == hi ==> walkEnd == end && prevFirst == None)
  }

  lemma NothingPaged(bars: seq<Bar>, span: Span, end: int)
    requires AscendingBars(bars)
    ensures Standing({}, map[], bars, span, end, OpenedBy(bars, end), OpenedBy(bars, end), end, None)
  {
  }

  /** A tail-aligned page is never taken for a repeat of the one before. */
  lemma PageIsNoRepeat(rows: seq<Bar>, seen: set<nat>, collected: map<nat, Bar>,
                       bars: seq<Bar>, span: Span, end: int, lo: nat, hi: nat, walkEnd: int, prevFirst: Option<nat>)
    requires Standing(seen, collected, bars, span, end, lo, hi, walkEnd, prevFirst)
    requires rows != [] && IsTail(rows, bars, span, end, walkEnd)
    ensures 0 < |rows| <= lo && rows[0].openMs == bars[lo - |rows|].openMs
    ensures rows[0].openMs !in seen && prevFirst != Some(rows[0].openMs) && rows[0].openMs <= walkEnd
  {
    hide ClosedBy, Sane, OpenedBy;
    var first := lo - |rows|;
    assert Snapshot(rows[0], bars[first], span, end);
    if rows[0].openMs in seen {
      var i :| lo <= i < hi && bars[i].openMs == rows[0].openMs;
      DistinctOpens(bars, first, i);
    }
  }

  /** It keeps the standing and moves the end of the walk to just before its
      oldest bar. */
  lemma PageMovesBack(rows: seq<Bar>, seen: set<nat>, collected: map<nat, Bar>, collected': map<nat, Bar>, oldest: nat,
                      bars: seq<Bar>, span: Span, end: int, lo: nat, hi: nat)
    requires AscendingBars(bars) && hi == OpenedBy(bars, end)
    requires Paged(seen, collected, bars, span, end, lo, hi)
    requires 0 < |rows| <= lo
    requires forall i :: 0 <= i < |rows| ==> Snapshot(rows[i], bars[lo - |rows| + i], span, end)
    requires Absorbed(rows, seen, seen + Opens(rows), collected, collected')
    requires oldest == bars[lo - |rows|].openMs
    ensures Standing(seen + Opens(rows), collected', bars, span, end, lo - |rows|, hi, oldest - 1, Some(oldest))
  {
    hide ClosedBy, Sane, Absorbed, OpenedBy, Opens, AscendingBars, SeenRight, CollectedRight, Snapshot;
    Bounded(seen, bars, lo, hi);
    SeenExtends(rows, seen, bars, span, end, lo, hi);
    CollectedExtends(rows, seen, collected, collected', bars, span, end, lo, hi);
    PositionBelow(bars, lo - |rows|);
  }

  lemma Bounded(seen: set<nat>, bars: seq<Bar>, lo: nat, hi: nat)
    requires SeenRight(seen, bars, lo, hi)
    ensures lo <= hi <= |bars|
  {
  }

  lemma StandingParts(rows: seq<Bar>, seen: set<nat>, collected: map<nat, Bar>,
                      bars: seq<Bar>, span: Span, end: int, lo: nat, hi: nat, walkEnd: int, prevFirst: Option<nat>)
    requires Standing(seen, collected, bars, span, end, lo, hi, walkEnd, prevFirst)
    requires IsTail(rows, bars, span, end, walkEnd)
    ensures AscendingBars(bars) && hi == OpenedBy(bars, end) && Paged(seen, collected, bars, span, end, lo, hi)
    ensures |rows| <= lo <= |bars| && forall i :: 0 <= i < |rows| ==> Snapshot(rows[i], bars[lo - |rows| + i], span, end)
  {
    hide Snapshot, AscendingBars, OpenedBy, SeenRight, CollectedRight;
    Bounded(seen, bars, lo, hi);
  }

  lemma EmptyPage(seen: set<nat>, collected: map<nat, Bar>, bars: seq<Bar>, span: Span, end: int,
                  lo: nat, hi: nat, walkEnd: int, prevFirst: Option<nat>)
    requires Standing(seen, collected, bars, span, end, lo, hi, walkEnd, prevFirst)
    requires IsTail([], bars, span, end, walkEnd)
    ensures lo == 0
  {
  }

  lemma AbsorbedRows(rows: seq<Bar>, seen: set<nat>, seen': set<nat>, collected: map<nat, Bar>, collected': map<nat, Bar>)
    requires Absorbed(rows, seen, seen', collected, collected')
    ensures seen' == seen + Opens(rows)
    ensures forall o :: o in collected' ==>
              (o in collected && collected'[o] == collected[o]) || (Sane(collected'[o]) && collected'[o].openMs == o)
  {
  }

  /** Every closed insane bar of the positions paged is among the dropped ones. */
  ghost predicate DroppedRight(dropped: seq<Bar>, bars: seq<Bar>, span: Span, end: int, lo: nat, hi: nat) {
    lo <= hi <= |bars| && forall i :: lo <= i < hi && ClosedBy(bars[i], span, end) && !Sane(bars[i]) ==> bars[i] in dropped
  }

  lemma DropsExtend(rows: seq<Bar>, dropped: seq<Bar>, bars: seq<Bar>, span: Span, end: int, lo: nat, hi: nat)
    requires DroppedRight(dropped, bars, span, end, lo, hi) && |rows| <= lo
    requires forall i :: 0 <= i < |rows| ==> Snapshot(rows[i], bars[lo - |rows| + i], span, end)
    ensures DroppedRight(dropped + Insane(rows), bars, span, end, lo - |rows|, hi)
  {
    hide Sane, ClosedBy, Insane, Snapshot;
    InsaneRows(rows);
    var first := lo - |rows|;
    forall i | first <= i < hi && ClosedBy(bars[i], span, end) && !Sane(bars[i])
      ensures bars[i] in dropped + Insane(rows)
    {
      if i < lo {
        var k := i - first;
        assert Snapshot(rows[k], bars[first + k], span, end);
        FinalRow(rows[k], bars[i], span, end);
        assert rows[k] in rows;
      }
    }
  }

  lemma FinalRow(row: Bar, bar: Bar, span: Span, end: int)
    requires Snapshot(row, bar, span, end) && ClosedBy(bar, span, end)
    ensures row == bar
  {}

  /** One page taken in, seen from the venue: the walk stands one page further back. */
  lemma PageStands(rows: seq<Bar>, seen: set<nat>, seen': set<nat>, collected: map<nat, Bar>, collected': map<nat, Bar>, dropped: seq<Bar>,
                   oldest: nat, bars: seq<Bar>, span: Span, end: int, lo: nat, hi: nat, walkEnd: int, prevFirst: Option<nat>)
    requires Standing(seen, collected, bars, span, end, lo, hi, walkEnd, prevFirst) && DroppedRight(dropped, bars, span, end, lo, hi)
    requires 0 < |rows| <= lo && rows[0].openMs == bars[lo - |rows|].openMs && IsTail(rows, bars, span, end, walkEnd)
    requires Absorbed(rows, seen, seen', collected, collected')
    requires (exists r :: r in rows && r.openMs == oldest) && forall r :: r in rows ==> oldest <= r.openMs
    ensures oldest == rows[0].openMs
    ensures Standing(seen', collected', bars, span, end, lo - |rows|, hi, oldest - 1, Some(oldest))
    ensures DroppedRight(dropped + Insane(rows), bars, span, end, lo - |rows|, hi)
  {
    hide DroppedRight, AscendingBars, OpenedBy, Insane, Absorbed, Standing, Snapshot, IsTail, Paged;
    AbsorbedRows(rows, seen, seen', collected, collected');
    StandingParts(rows, seen, collected, bars, span, end, lo, hi, walkEnd, prevFirst);
    OldestIsFirst(rows, bars, span, end, lo, oldest);
    DropsExtend(rows, dropped, bars, span, end, lo, hi);
    PageMovesBack(rows, seen, collected, collected', oldest, bars, span, end, lo, hi);
  }

  /** The closed insane bars from the floor on have all been dropped with evidence. */
  ghost predicate AllDropped(dropped: seq<Bar>, bars: seq<Bar>, span: Span, floor: int, end: int) {
    forall b :: b in bars && floor <= b.openMs <= end && ClosedBy(b, span, end) && !Sane(b) ==> b in dropped
  }

  lemma DropsEnd(dropped: seq<Bar>, collected: map<nat, Bar>, seen: set<nat>, bars: seq<Bar>, span: Span, floor: int, end: int,
                 lo: nat, hi: nat, walkEnd: int, prevFirst: Option<nat>)
    requires Standing(seen, collected, bars, span, end, lo, hi, walkEnd, prevFirst)
    requires DroppedRight(dropped, bars, span, end, lo, hi) && (walkEnd < floor || lo == 0)
    ensures AllDropped(dropped, bars, span, floor, end)
  {
    hide Sane, ClosedBy;
    forall i | 0 <= i < lo
      ensures bars[i].openMs < floor
    {
      assert i < OpenedBy(bars, walkEnd);
    }
    forall b | b in bars && floor <= b.openMs <= end && ClosedBy(b, span, end) && !Sane(b)
      ensures b in dropped
    {
      var i :| 0 <= i < |bars| && bars[i] == b;
    }
  }

  // ---- why a walk ends ----------------------------------------------------

  /** The last of `slots + 1` calls in a row that were all rate-limited. */
  predicate LimitedAt(venue: Venue, first: nat, k: nat, start: int, to: int, slots: nat) {
    k >= first + slots && forall i :: k - slots <= i <= k ==> i >= 0 && venue(i, start, to).RateLimited?
  }

  /** How the last call's answer decides a walk whose next call would be `next`. */
  ghost predicate DecidedBy(out: WalkOutcome, venue: Venue, first: nat, next: nat, start: int, to: int, slots: nat) {
    next > first &&
    match out
    case Surfaced => LimitedAt(venue, first, next - 1, start, to, slots)
    case FetchFailed(message) => venue(next - 1, start, to) == Refused(message)
    case Walked(_) => venue(next - 1, start, to).Page?
  }

  lemma WalkEnds(collected: map<nat, Bar>, seen: set<nat>, bars: seq<Bar>, span: Span, floor: int, end: int,
                 lo: nat, hi: nat, walkEnd: int, prevFirst: Option<nat>)
    requires Standing(seen, collected, bars, span, end, lo, hi, walkEnd, prevFirst)
    requires forall o :: o in collected ==> collected[o].openMs == o && Sane(collected[o])
    requires walkEnd < floor || lo == 0
    ensures Covers(ByOpenTime(collected), bars, span, floor, end)
  {
    forall i | 0 <= i < lo ensures bars[i].openMs < floor {
      assert i < OpenedBy(bars, walkEnd);
    }
    WalkIsComplete(collected, seen, bars, span, floor, end, lo, hi);
  }

  /** Terminates whatever the venue answers; the history it returns is strictly
      ascending and sane. Against a tail-aligned venue it misses no closed bar from
      the floor to `end`. `bars` is the venue's history, used in the proof only. */
  method WalkBackward(venue: Venue, calls: nat, floor: int, end: int, slots: nat, ghost bars: seq<Bar>, ghost span: Span)
    returns (out: WalkOutcome, calls': nat, dropped: seq<Bar>)
    ensures calls' >= calls
    ensures out.Walked? ==> AscendingBars(out.history) && forall b :: b in out.history ==> Sane(b)
    ensures out.Walked? && TailAligned(venue, bars, span, end) ==> Covers(out.history, bars, span, floor, end)
    ensures forall b :: b in dropped ==> !Sane(b)
    ensures out.Walked? && TailAligned(venue, bars, span, end) ==> AllDropped(dropped, bars, span, floor, end)
    ensures calls' > calls <==> floor <= end
    ensures floor > end ==> out.Walked?
    ensures floor <= end ==> exists to :: to <= end && DecidedBy(out, venue, calls, calls', floor, to, slots)
  {
    hide DroppedRight, AllDropped, Sane, AscendingBars, OpenedBy, Complete, Covers, Insane, Absorbed, Standing, IsTail, ByOpenTime;
    calls', dropped := calls, [];
    var collected: map<nat, Bar> := map[];
    var seen: set<nat> := {};
    var walkEnd := end;
    var prevFirst: Option<nat> := None;
    ghost var tail := TailAligned(venue, bars, span, end);
    ghost var hi: nat := if tail then OpenedBy(bars, end) else 0;
    ghost var lo: nat := hi;
    if tail { NothingPaged(bars, span, end); }
    assert tail ==> DroppedRight([], bars, span, end, lo, hi) by { NothingDropped(bars, span, end, hi); }
    ghost var asked := end;
    while walkEnd >= floor
      invariant calls' >= calls && walkEnd <= end
      invariant forall o :: o in collected ==> collected[o].openMs == o && Sane(collected[o])
      invariant forall b :: b in dropped ==> !Sane(b)
      invariant tail ==> Standing(seen, collected, bars, span, end, lo, hi, walkEnd, prevFirst)
      invariant tail ==> DroppedRight(dropped, bars, span, end, lo, hi)
      invariant asked <= end && (calls' > calls ==> venue(calls' - 1, floor, asked).Page?)
      invariant (calls' == calls ==> walkEnd == end) && (calls' > calls ==> floor <= end)
      decreases walkEnd - floor
    {
      var reply;
      reply, calls' := FetchWithBackoff(venue, calls', floor, walkEnd, slots);
      asked := walkEnd;
      if reply.RateLimited? {
        assert LimitedAt(venue, calls, calls' - 1, floor, asked, slots);
        assert DecidedBy(Surfaced, venue, calls, calls', floor, asked, slots);
        return Surfaced, calls', dropped;
      }
      if reply.Refused? {
        assert DecidedBy(FetchFailed(reply.message), venue, calls, calls', floor, asked, slots);
        return FetchFailed(reply.message), calls', dropped;
      }
      var page := reply.rows;
      assert tail ==> IsTail(page, bars, span, end, walkEnd);
      if page == [] {
        if tail { EmptyPage(seen, collected, bars, span, end, lo, hi, walkEnd, prevFirst); }
        break;
      }
      var first := page[0].openMs;
      if tail { PageIsNoRepeat(page, seen, collected, bars, span, end, lo, hi, walkEnd, prevFirst); }
      if prevFirst == Some(first) { break; }
      ghost var had, held, before := seen, collected, prevFirst;
      var newAny, oldest, bad;
      seen, collected, bad, newAny, oldest := AbsorbPage(page, seen, collected);
      AbsorbedRows(page, had, seen, held, collected);
      InsaneRows(page);
      ghost var drops := dropped;
      dropped := dropped + bad;
      if tail {
        PageStands(page, had, seen, held, collected, drops, oldest, bars, span, end, lo, hi, walkEnd, before);
        assert page[0] in page;
        lo := lo - |page|;
      }
      prevFirst := Some(first);
      if !newAny { break; }
      var nextEnd := oldest as int - 1;
      if nextEnd >= walkEnd { break; }
      walkEnd := nextEnd;
    }
    out := Walked(ByOpenTime(collected));
    if tail {
      WalkEnds(collected, seen, bars, span, floor, end, lo, hi, walkEnd, prevFirst);
      DropsEnd(dropped, collected, seen, bars, span, floor, end, lo, hi, walkEnd, prevFirst);
    }
    if floor <= end { assert DecidedBy(out, venue, calls, calls', floor, asked, slots); }
  }

  lemma NothingDropped(bars: seq<Bar>, span: Span, end: int, hi: nat)
    requires hi <= |bars|
    ensures DroppedRight([], bars, span, end, hi, hi)
  {}

  lemma {:induction false} InsaneRows(rows: seq<Bar>)
    ensures forall b :: b in Insane(rows) <==> b in rows && !Sane(b)
  {
    hide Sane;
    if rows != [] {
      InsaneRows(rows[..|rows| - 1]);
      assert rows == rows[..|rows| - 1] + [rows[|rows| - 1]];
    }
  }

  lemma PositionBelow(bars: seq<Bar>, lo: nat)
    requires AscendingBars(bars) && lo < |bars|
    ensures OpenedBy(bars, bars[lo].openMs - 1) == lo
  {
    var n := OpenedBy(bars, bars[lo].openMs - 1);
    if n < lo {
      DistinctOpens(bars, n, lo);
      assert false;
    }
  }

  lemma OldestIsFirst(rows: seq<Bar>, bars: seq<Bar>, span: Span, end: int, lo: nat, oldest: nat)
    requires AscendingBars(bars) && 0 < |rows| <= lo <= |bars|
    requires forall i :: 0 <= i < |rows| ==> Snapshot(rows[i], bars[lo - |rows| + i], span, end)
    requires (exists r :: r in rows && r.openMs == oldest) && forall r :: r in rows ==> oldest <= r.openMs
    ensures oldest == bars[lo - |rows|].openMs
  {
    hide ClosedBy;
    var k :| 0 <= k < |rows| && rows[k].openMs == oldest;
    assert Snapshot(rows[k], bars[lo - |rows| + k], span, end) && Snapshot(rows[0], bars[lo - |rows|], span, end);
    assert rows[0] in rows;
  }

  lemma WalkIsComplete(collected: map<nat, Bar>, seen: set<nat>, bars: seq<Bar>, span: Span, floor: int, end: int, lo: nat, hi: nat)
    requires AscendingBars(bars) && hi == OpenedBy(bars, end) && Paged(seen, collected, bars, span, end, lo, hi)
    requires forall o :: o in collected ==> collected[o].openMs == o && Sane(collected[o])
    requires forall i :: 0 <= i < lo ==> bars[i].openMs < floor
    ensures Complete(ByOpenTime(collected), bars, span, floor, end, lo)
  {
    hide Sane, ClosedBy, AscendingBars;
    var history := ByOpenTime(collected);
    forall i | lo <= i < |bars| && bars[i].openMs <= end && ClosedBy(bars[i], span, end) && Sane(bars[i])
      ensures bars[i] in history
    {
      var o := bars[i].openMs;
      var j :| lo <= j < hi && Snapshot(collected[o], bars[j], span, end);
      if i != j { DistinctOpens(bars, i, j); }
      assert collected[o] == bars[i];
    }
    forall b | b in history
      ensures exists i :: lo <= i < |bars| && bars[i].openMs <= end && Snapshot(b, bars[i], span, end)
    {
      var j :| lo <= j < hi && Snapshot(collected[b.openMs], bars[j], span, end);
      assert bars[j].openMs <= end;
    }
  }
}
