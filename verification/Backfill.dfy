/** The page source and the catch-up driver: serving ascending pages of a walked
    history across cycles, failures and retries, and what the raw store then holds. */
module Backfill {
  import opened Wrappers
  import opened CivilTime
  import opened KlineWalk

  datatype Cell = Cell(symbol: string, timeframe: string)

  /** The span judged by the closed-bar law; an unknown timeframe never gets as far. */
  function SpanFor(cell: Cell): (span: Span) {
    match SpanOf(cell.timeframe) case Some(span) => span case None => CalendarMonth
  }

  // ---- the serve boundary -------------------------------------------------

  predicate After(bar: Bar, mark: Option<int>) { mark.Some? ==> bar.openMs > mark.value }

  predicate Serves(bar: Bar, frontier: Option<int>, served: Option<int>, span: Span, end: int) {
    After(bar, frontier) && After(bar, served) && ClosedBy(bar, span, end)
  }

  function Eligible(history: seq<Bar>, frontier: Option<int>, served: Option<int>, span: Span, end: int): (rows: seq<Bar>) {
    if history == [] then []
    else
      var front := Eligible(history[..|history| - 1], frontier, served, span, end);
      if Serves(history[|history| - 1], frontier, served, span, end) then front + [history[|history| - 1]] else front
  }

  lemma {:induction false} EligibleRows(history: seq<Bar>, frontier: Option<int>, served: Option<int>, span: Span, end: int)
    requires AscendingBars(history)
    ensures forall b :: b in Eligible(history, frontier, served, span, end) <==>
              b in history && Serves(b, frontier, served, span, end)
    ensures AscendingBars(Eligible(history, frontier, served, span, end))
  {
    hide Serves;
    if history != [] {
      var n := |history| - 1;
      FrontAscends(history);
      hide AscendingBars;
      EligibleRows(history[..n], frontier, served, span, end);
      assert history == history[..n] + [history[n]];
      LaterBarAscends(Eligible(history[..n], frontier, served, span, end), history[n]);
    }
  }

  lemma FrontAscends(bars: seq<Bar>)
    requires AscendingBars(bars) && bars != []
    ensures var n := |bars| - 1; AscendingBars(bars[..n]) && forall b :: b in bars[..n] ==> b.openMs < bars[n].openMs
  {}

  lemma LaterBarAscends(front: seq<Bar>, bar: Bar)
    requires AscendingBars(front) && forall b :: b in front ==> b.openMs < bar.openMs
    ensures AscendingBars(front + [bar])
  {
    assert forall i :: 0 <= i < |front| ==> front[i] in front;
  }

  function Take(rows: seq<Bar>, n: nat): (s: seq<Bar>) {
    if |rows| <= n then rows else rows[..n]
  }

  datatype PageResult =
    | Served(rows: seq<Bar>, nextCursor: int)
    | BackOff
    | BudgetReached
    | FetchRefused(message: string)
    | BadTimeframe

  function FloorIn(floors: map<Cell, Option<int>>, cell: Cell): (floor: int) {
    if cell in floors && floors[cell].Some? then floors[cell].value else DEEP_START_MS
  }

  function FrontierIn(frontiers: map<Cell, Option<int>>, cell: Cell, cursor: int): (frontier: Option<int>) {
    if cell in frontiers then frontiers[cell] else Some(cursor - 1)
  }

  function MarkIn(marks: map<Cell, int>, cell: Cell): (mark: Option<int>) {
    if cell in marks then Some(marks[cell]) else None
  }

  /** A cached walk taken for an earlier end is walked again. */
  predicate Stale(history: map<Cell, seq<Bar>>, historyEnd: map<Cell, int>, cell: Cell, end: int) {
    cell !in history || (cell in historyEnd && historyEnd[cell] < end)
  }

  /** Why a cell's catch-up gave up: a step that raised, or an answer of the venue, or a
      limit of the source. Calls are numbered from the first of the process. */
  datatype Cause =
    | ReadFailed | RateLimits(call: nat, start: int, to: int) | VenueRefused(call: nat, start: int, to: int)
    | PageBudget | UnknownTimeframe | RowFailed(row: nat) | FlushFailed

  /** What else may raise for one cell: reading the frontier, storing its n-th row of the
      cycle, the flush after the last page, and the accounting at the end. */
  datatype Faults = Faults(read: bool, row: nat -> bool, flush: bool, account: bool)

  /** The world did give this cause: `first` is the next call when the cell began, and
      `served` the pages served when it ended. */
  ghost predicate Happened(cause: Cause, faults: Faults, venue: Venue, cell: Cell, now: int, first: nat, slots: nat, maxPages: Option<nat>, served: nat) {
    match cause
    case ReadFailed => faults.read
    case RateLimits(call, start, to) => to <= now && LimitedAt(venue, first, call, start, to, slots)
    case VenueRefused(call, start, to) => to <= now && call >= first && venue(call, start, to).Refused?
    case PageBudget => maxPages.Some? && served >= maxPages.value
    case UnknownTimeframe => SpanOf(cell.timeframe).None?
    case RowFailed(n) => faults.row(n)
    case FlushFailed => faults.flush
  }

  /** A walk that failed, and the call that decided so. */
  ghost predicate FailsBy(failure: PageResult, venue: Venue, first: nat, next: nat, start: int, to: int, end: int, slots: nat) {
    && to <= end
    && (   (failure.BackOff? && DecidedBy(Surfaced, venue, first, next, start, to, slots))
        || (failure.FetchRefused? && DecidedBy(FetchFailed(failure.message), venue, first, next, start, to, slots)))
  }

  ghost predicate VenueFails(failure: PageResult, venue: Venue, first: nat, next: nat, end: int, slots: nat) {
    exists start, to :: FailsBy(failure, venue, first, next, start, to, end, slots)
  }

  class KlineSource {
    const maxPages: Option<nat>
    const slots: nat
    var pagesServed: nat
    var calls: nat
    var history: map<Cell, seq<Bar>>
    var historyEnd: map<Cell, int>
    var frontiers: map<Cell, Option<int>>
    var servedUpto: map<Cell, int>
    var floors: map<Cell, Option<int>>
    var dropped: map<Cell, seq<Bar>>

    ghost predicate Valid()
      reads this
    {
      && history.Keys == historyEnd.Keys
      && forall cell :: cell in history ==> AscendingBars(history[cell]) && forall b :: b in history[cell] ==> Sane(b)
    }

    constructor (maxPages: Option<nat>, slots: nat)
      ensures Valid() && this.maxPages == maxPages && this.slots == slots
      ensures pagesServed == 0 && calls == 0 && history == map[] && frontiers == map[] && servedUpto == map[] && floors == map[]
    {
      this.maxPages, this.slots := maxPages, slots;
      pagesServed, calls, history, historyEnd, frontiers, servedUpto, floors, dropped := 0, 0, map[], map[], map[], map[], map[], map[];
    }

    /** A retry starts again from what the store holds, never from what was served. */
    method BeginCatchUp(cell: Cell, frontier: Option<int>)
      requires Valid()
      modifies this
      ensures Valid() && pagesServed == old(pagesServed) && calls == old(calls) && dropped == old(dropped)
      ensures frontiers == old(frontiers)[cell := frontier] && floors == old(floors)[cell := frontier]
      ensures history == old(history) - {cell} && historyEnd == old(historyEnd) - {cell}
      ensures servedUpto == old(servedUpto) - {cell}
    {
      frontiers := frontiers[cell := frontier];
      servedUpto := servedUpto - {cell};
      history := history - {cell};
      historyEnd := historyEnd - {cell};
      floors := floors[cell := frontier];
    }

    /** The bootstrap run's hand-over keeps the in-process high-water marks. */
    method SetFrontiers(given: map<Cell, Option<int>>)
      requires Valid()
      modifies this`frontiers
      ensures Valid() && frontiers == given
    {
      frontiers := given;
    }

    /** Takes a fresh walk when the end of the run has moved past the cached one. */
    method Refresh(cell: Cell, end: int, venue: Venue, ghost bars: seq<Bar>) returns (failure: Option<PageResult>)
      requires Valid()
      modifies this`calls, this`dropped, this`history, this`historyEnd
      ensures Valid() && calls >= old(calls)
      ensures failure.Some? ==> Stale(old(history), old(historyEnd), cell, end)
      ensures failure.Some? ==> VenueFails(failure.value, venue, old(calls), calls, end, slots)
      ensures failure.Some? ==> failure.value.BackOff? || failure.value.FetchRefused?
      ensures failure.Some? || !Stale(old(history), old(historyEnd), cell, end) ==> history == old(history) && historyEnd == old(historyEnd)
      ensures failure.None? ==> cell in history && historyEnd[cell] >= end
      ensures failure.None? && Stale(old(history), old(historyEnd), cell, end) ==>
                && history == old(history)[cell := history[cell]] && historyEnd == old(historyEnd)[cell := end]
                && (TailAligned(venue, bars, SpanFor(cell), end) ==>
                      Covers(history[cell], bars, SpanFor(cell), FloorIn(floors, cell), end))
    {
      hide AscendingBars, Sane, Covers, TailAligned, DecidedBy, AllDropped;
      failure := None;
      if Stale(history, historyEnd, cell, end) {
        var out, bad;
        out, calls, bad := WalkBackward(venue, calls, FloorIn(floors, cell), end, slots, bars, SpanFor(cell));
        dropped := dropped[cell := (if cell in dropped then dropped[cell] else []) + bad];
        ghost var to := DecidingEnd(out, venue, old(calls), calls, FloorIn(floors, cell), end, slots);
        match out
        case Surfaced =>
          failure := Some(BackOff);
          assert FailsBy(BackOff, venue, old(calls), calls, FloorIn(floors, cell), to, end, slots);
        case FetchFailed(message) =>
          failure := Some(FetchRefused(message));
          assert FailsBy(FetchRefused(message), venue, old(calls), calls, FloorIn(floors, cell), to, end, slots);
        case Walked(walked) =>
          history := history[cell := walked];
          historyEnd := historyEnd[cell := end];
      }
    }

    /** The serve boundary: the next `limit` closed bars past the store frontier and
        past what this process has already served. */
    method Serve(cell: Cell, start: int, end: int, limit: nat) returns (page: PageResult)
      requires Valid() && cell in history && limit > 0
      modifies this`pagesServed, this`servedUpto
      ensures page.Served? || page.BadTimeframe?
      ensures page.BadTimeframe? ==> SpanOf(cell.timeframe).None?
      ensures pagesServed == old(pagesServed) + (if page.Served? then 1 else 0)
      ensures page.Served? ==>
                var frontier := if cell in frontiers then frontiers[cell] else Some(start - 1);
                page.rows == Take(Eligible(history[cell], frontier, MarkIn(old(servedUpto), cell), SpanFor(cell), end), limit)
      ensures page.Served? && page.rows != [] ==>
                var close := CloseOf(page.rows[|page.rows| - 1].openMs, SpanFor(cell));
                && page.nextCursor == (if close > start then close else start + 1)
                && servedUpto == old(servedUpto)[cell := page.rows[|page.rows| - 1].openMs]
      ensures !page.Served? || page.rows == [] ==> servedUpto == old(servedUpto)
      ensures page.Served? && page.rows == [] ==> page.nextCursor == end
    {
      hide AscendingBars, Sane, CloseOf;
      var frontier, served := FrontierIn(frontiers, cell, start), MarkIn(servedUpto, cell);
      var walked := history[cell];
      var eligible: seq<Bar> := [];
      var i := 0;
      while i < |walked|
        invariant 0 <= i <= |walked|
        invariant eligible == Eligible(walked[..i], frontier, served, SpanFor(cell), end)
      {
        assert walked[..i + 1][..i] == walked[..i];
        var obs := walked[i];
        if After(obs, frontier) && After(obs, served) {
          if SpanOf(cell.timeframe).None? { return BadTimeframe; }
          if ClosedBy(obs, SpanFor(cell), end) { eligible := eligible + [obs]; }
        }
        i := i + 1;
      }
      assert walked[..|walked|] == walked;
      var chunk := Take(eligible, limit);
      pagesServed := pagesServed + 1;
      if chunk == [] { return Served([], end); }
      var last := chunk[|chunk| - 1];
      assert Serves(last, frontier, served, SpanFor(cell), end) by {
        EligibleRows(walked, frontier, served, SpanFor(cell), end);
        assert last in eligible;
      }
      if cell !in servedUpto || last.openMs > servedUpto[cell] {
        servedUpto := servedUpto[cell := last.openMs];
      }
      var close := CloseOf(last.openMs, SpanFor(cell));
      page := Served(chunk, if close > start then close else start + 1);
    }

    /** The fetcher the driver calls for each page. */
    method Call(cell: Cell, start: int, end: int, limit: nat, venue: Venue, ghost bars: seq<Bar>) returns (page: PageResult)
      requires Valid() && limit > 0
      modifies this
      ensures Valid() && frontiers == old(frontiers) && floors == old(floors) && calls >= old(calls)
      ensures page.BackOff? || page.FetchRefused? ==>
                Stale(old(history), old(historyEnd), cell, end) && VenueFails(page, venue, old(calls), calls, end, slots)
      ensures page.BadTimeframe? ==> SpanOf(cell.timeframe).None?
      ensures page.BudgetReached? <==> maxPages.Some? && old(pagesServed) >= maxPages.value
      ensures pagesServed == old(pagesServed) + (if page.Served? then 1 else 0)
      ensures page.Served? ==> cell in history && historyEnd[cell] >= end
      ensures page.Served? && !Stale(old(history), old(historyEnd), cell, end) ==>
                history == old(history) && historyEnd == old(historyEnd)
      ensures page.Served? && Stale(old(history), old(historyEnd), cell, end) ==>
                && history == old(history)[cell := history[cell]] && historyEnd == old(historyEnd)[cell := end]
                && (TailAligned(venue, bars, SpanFor(cell), end) ==>
                      Covers(history[cell], bars, SpanFor(cell), FloorIn(floors, cell), end))
      ensures page.Served? ==>
                var frontier := if cell in frontiers then frontiers[cell] else Some(start - 1);
                page.rows == Take(Eligible(history[cell], frontier, MarkIn(old(servedUpto), cell), SpanFor(cell), end), limit)
      ensures page.Served? && page.rows != [] ==>
                var close := CloseOf(page.rows[|page.rows| - 1].openMs, SpanFor(cell));
                && page.nextCursor == (if close > start then close else start + 1)
                && servedUpto == old(servedUpto)[cell := page.rows[|page.rows| - 1].openMs]
      ensures !page.Served? || page.rows == [] ==> servedUpto == old(servedUpto)
      ensures page.Served? && page.rows == [] ==> page.nextCursor == end
    {
      hide AscendingBars, Sane, TailAligned, CloseOf, Covers, Eligible, VenueFails;
      if maxPages.Some? && pagesServed >= maxPages.value { return BudgetReached; }
      var failure := Refresh(cell, end, venue, bars);
      if failure.Some? { return failure.value; }
      page := Serve(cell, start, end, limit);
    }
  }

  lemma DecidingEnd(out: WalkOutcome, venue: Venue, first: nat, next: nat, start: int, end: int, slots: nat) returns (to: int)
    requires start <= end ==> exists to :: to <= end && DecidedBy(out, venue, first, next, start, to, slots)
    requires start > end ==> out.Walked?
    ensures !out.Walked? ==> to <= end && DecidedBy(out, venue, first, next, start, to, slots)
  {
    to := end;
    if !out.Walked? { to :| to <= end && DecidedBy(out, venue, first, next, start, to, slots); }
  }

  // ---- what the store holds -----------------------------------------------

  /** A venue history: strictly ascending, every open time printable. */
  ghost predicate Series(bars: seq<Bar>) {
    AscendingBars(bars) && forall i :: 0 <= i < |bars| ==> Printable(bars[i].openMs)
  }

  /** The gap-free law: rows in order, each a sane final bar of the venue, and no
      sane bar missing between the first row (or the deep start) and the last row. */
  ghost predicate GapFree(rows: seq<Bar>, bars: seq<Bar>) {
    && AscendingBars(rows)
    && (forall b :: b in rows ==> b in bars && Sane(b))
    && (forall b ::
          (b in bars && Sane(b) && rows != [] && b.openMs <= rows[|rows| - 1].openMs
           && (rows[0].openMs <= b.openMs || DEEP_START_MS <= b.openMs))
          ==> b in rows)
  }

  ghost predicate HoldsClosed(rows: seq<Bar>, bars: seq<Bar>, span: Span, now: int) {
    forall b :: b in bars && Sane(b) && 1577836800000 <= b.openMs && CloseOf(b.openMs, span) <= now ==> b in rows
  }

  datatype Outcome = Untouched | Failed | Done

  /** What one catch-up cycle may do to one cell. */
  ghost predicate CellStep(bars: seq<Bar>, span: Span, now: int, before: seq<Bar>, after: seq<Bar>, outcome: Outcome) {
    && before <= after
    && GapFree(after, bars)
    && (forall b :: b in after ==> b in before || ClosedBy(b, span, now))
    && (outcome.Untouched? ==> after == before)
    && (outcome.Done? ==> HoldsClosed(after, bars, span, now))
  }

  function LastOpen(rows: seq<Bar>): (mark: Option<int>) {
    if rows == [] then None else Some(rows[|rows| - 1].openMs)
  }

  function OpenTimes(rows: seq<Bar>): (times: seq<nat>)
    ensures |times| == |rows| && forall i :: 0 <= i < |rows| ==> times[i] == rows[i].openMs
  {
    if rows == [] then [] else OpenTimes(rows[..|rows| - 1]) + [rows[|rows| - 1].openMs]
  }

  /** SELECT MAX(as_of), parsed back to milliseconds. */
  function StoreFrontier(rows: seq<Bar>): (frontier: Option<int>)
    requires forall i :: 0 <= i < |rows| ==> Printable(rows[i].openMs)
  {
    if rows == [] then None
    else match IsoToMs(TextMax(Printed(OpenTimes(rows)))) case None => None case Some(ms) => Some(ms as int)
  }

  lemma FrontierIsLastRow(rows: seq<Bar>)
    requires AscendingBars(rows) && forall i :: 0 <= i < |rows| ==> Printable(rows[i].openMs)
    ensures StoreFrontier(rows) == LastOpen(rows)
  {
    hide Printable, IsoToMs, TextMax, Printed, AscendingBars;
    if rows != [] {
      var times := OpenTimes(rows);
      TextMaxIsTimeMax(times);
      var top :| 0 <= top < |times| && times[top] == MaxOf(times);
      assert times[|rows| - 1] <= MaxOf(times);
      if top < |rows| - 1 { DistinctOpens(rows, top, |rows| - 1); }
    }
  }

  /** What is left to store: past the last row, closed by `now`. */
  predicate Pending(bar: Bar, rows: seq<Bar>, span: Span, now: int) {
    After(bar, LastOpen(rows)) && ClosedBy(bar, span, now)
  }

  /** The history covers everything still to be stored. */
  ghost predicate Feeds(history: seq<Bar>, rows: seq<Bar>, bars: seq<Bar>, span: Span, now: int) {
    && AscendingBars(history)
    && (forall b :: b in history && ClosedBy(b, span, now) ==> b in bars && Sane(b))
    && (forall b ::
          (b in bars && Sane(b) && Pending(b, rows, span, now)
           && (rows != [] || DEEP_START_MS <= b.openMs || (history != [] && history[0].openMs <= b.openMs)))
          ==> b in history)
  }

  lemma SameOpenSameBar(bars: seq<Bar>, b: Bar, c: Bar)
    requires AscendingBars(bars) && b in bars && c in bars && b.openMs == c.openMs
    ensures b == c
  {
    hide AscendingBars;
    var i :| 0 <= i < |bars| && bars[i] == b;
    var j :| 0 <= j < |bars| && bars[j] == c;
    if i != j { DistinctOpens(bars, i, j); }
  }

  lemma OrderedMembers(bars: seq<Bar>, b: Bar)
    requires AscendingBars(bars) && b in bars
    ensures bars[0].openMs <= b.openMs <= bars[|bars| - 1].openMs
  {
  }

  /** No bar up to the next pending one is missing once that is stored. */
  lemma NothingBetween(history: seq<Bar>, rows: seq<Bar>, next: Bar, b: Bar, bars: seq<Bar>, span: Span, now: int)
    requires AscendingBars(bars) && GapFree(rows, bars) && Feeds(history, rows, bars, span, now)
    requires next in history && Pending(next, rows, span, now)
    requires forall b :: b in history && Pending(b, rows, span, now) ==> next.openMs <= b.openMs
    requires b in bars && Sane(b) && b.openMs <= next.openMs
    requires (if rows == [] then next else rows[0]).openMs <= b.openMs || DEEP_START_MS <= b.openMs
    ensures b in rows || b == next
  {
    hide Sane, CloseOf, AscendingBars;
    CloseIsMonotone(b.openMs, next.openMs, span);
    if rows == [] || rows[|rows| - 1].openMs < b.openMs {
      HistoryStarts(history, next, bars, rows, span, now);
      assert Pending(b, rows, span, now);
      assert b in history;
      SameOpenSameBar(bars, b, next);
    }
  }

  lemma HistoryStarts(history: seq<Bar>, next: Bar, bars: seq<Bar>, rows: seq<Bar>, span: Span, now: int)
    requires Feeds(history, rows, bars, span, now) && next in history && Pending(next, rows, span, now)
    ensures history != [] && history[0].openMs <= next.openMs && next in bars && Sane(next)
  {
    hide Sane, CloseOf;
    OrderedMembers(history, next);
  }

  /** Storing the next pending bar keeps the law. */
  lemma StoreNext(history: seq<Bar>, rows: seq<Bar>, next: Bar, bars: seq<Bar>, span: Span, now: int)
    requires AscendingBars(bars) && GapFree(rows, bars) && Feeds(history, rows, bars, span, now)
    requires next in history && Pending(next, rows, span, now)
    requires forall b :: b in history && Pending(b, rows, span, now) ==> next.openMs <= b.openMs
    ensures GapFree(rows + [next], bars)
    ensures Feeds(history, rows + [next], bars, span, now)
  {
    hide Sane, CloseOf, ClosedBy;
    var rows' := rows + [next];
    HistoryStarts(history, next, bars, rows, span, now);
    NextAscends(rows, next);
    FeedsOn(history, rows, next, bars, span, now);
    hide AscendingBars, Feeds;
    forall b | b in bars && Sane(b) && b.openMs <= next.openMs && (rows'[0].openMs <= b.openMs || DEEP_START_MS <= b.openMs)
      ensures b in rows'
    {
      NothingBetween(history, rows, next, b, bars, span, now);
    }
  }

  lemma NextAscends(rows: seq<Bar>, next: Bar)
    requires AscendingBars(rows) && After(next, LastOpen(rows))
    ensures AscendingBars(rows + [next])
  {
    forall i | 0 <= i < |rows|
      ensures rows[i].openMs < next.openMs
    {
      OrderedMembers(rows, rows[i]);
    }
  }

  lemma FeedsOn(history: seq<Bar>, rows: seq<Bar>, next: Bar, bars: seq<Bar>, span: Span, now: int)
    requires Feeds(history, rows, bars, span, now) && Pending(next, rows, span, now)
    requires history != [] && history[0].openMs <= next.openMs
    ensures Feeds(history, rows + [next], bars, span, now)
  {
    hide Sane, CloseOf, ClosedBy, AscendingBars;
    assert LastOpen(rows + [next]) == Some(next.openMs);
  }

  /** Any prefix of one served page may get stored before a failure. */
  lemma {:induction false} StoreChunk(history: seq<Bar>, rows: seq<Bar>, page: seq<Bar>, k: nat, bars: seq<Bar>, span: Span, now: int)
    requires AscendingBars(bars) && GapFree(rows, bars) && Feeds(history, rows, bars, span, now)
    requires k <= |page| && IsNextPage(page, history, rows, span, now)
    ensures GapFree(rows + page[..k], bars)
    ensures Feeds(history, rows + page[..k], bars, span, now)
  {
    hide GapFree, Feeds, IsNextPage, CloseOf, AscendingBars;
    if k == 0 {
      assert rows + page[..0] == rows;
    } else {
      StoreChunk(history, rows, page, k - 1, bars, span, now);
      var stored := rows + page[..k - 1];
      assert stored + [page[k - 1]] == rows + page[..k];
      PageOrder(page, history, rows, k - 1, span, now);
      StoreNext(history, stored, page[k - 1], bars, span, now);
    }
  }

  /** A page of the bars still to be stored, oldest first. */
  ghost predicate IsNextPage(page: seq<Bar>, history: seq<Bar>, rows: seq<Bar>, span: Span, now: int) {
    && AscendingBars(page)
    && (forall b :: b in page ==> b in history && Pending(b, rows, span, now))
    && (forall b :: b in history && Pending(b, rows, span, now) ==> b in page || (page != [] && page[|page| - 1].openMs < b.openMs))
  }

  lemma PageOrder(page: seq<Bar>, history: seq<Bar>, rows: seq<Bar>, k: nat, span: Span, now: int)
    requires IsNextPage(page, history, rows, span, now) && k < |page|
    ensures page[k] in history && Pending(page[k], rows + page[..k], span, now)
    ensures forall b :: b in history && Pending(b, rows + page[..k], span, now) ==> page[k].openMs <= b.openMs
  {
    hide CloseOf;
    var stored := rows + page[..k];
    assert page[k] in page;
    assert k > 0 ==> stored[|stored| - 1] == page[k - 1];
    forall b | b in history && Pending(b, stored, span, now) ensures page[k].openMs <= b.openMs {
      assert Pending(b, rows, span, now) by {
        if k > 0 && rows != [] { assert page[k - 1] in page; }
      }
      if b in page {
        var j :| 0 <= j < |page| && page[j] == b;
      }
    }
  }

  /** What the source serves is the next page. */
  lemma ServedIsNextPage(history: seq<Bar>, frontier: Option<int>, served: Option<int>, rows: seq<Bar>, limit: nat, span: Span, now: int)
    requires AscendingBars(history) && limit > 0
    requires MarksMatch(frontier, served, rows)
    ensures IsNextPage(Take(Eligible(history, frontier, served, span, now), limit), history, rows, span, now)
  {
    hide CloseOf, Eligible;
    var eligible := Eligible(history, frontier, served, span, now);
    var page := Take(eligible, limit);
    EligibleRows(history, frontier, served, span, now);
    forall b | b in history && Pending(b, rows, span, now)
      ensures b in page || (page != [] && page[|page| - 1].openMs < b.openMs)
    {
      assert b in eligible;
      var j :| 0 <= j < |eligible| && eligible[j] == b;
      if j < |page| { assert page[j] == b; }
    }
    forall b | b in page ensures b in history && Pending(b, rows, span, now) {
      assert b in eligible;
    }
  }

  /** The frontier read at the start and the in-process mark together name the last
      stored row. */
  predicate MarksMatch(frontier: Option<int>, served: Option<int>, rows: seq<Bar>) {
    if served.None? then frontier == LastOpen(rows)
    else served == LastOpen(rows) && (frontier.Some? ==> frontier.value <= served.value)
  }

  /** A finished walk down to the store frontier feeds the store. */
  lemma WalkFeeds(history: seq<Bar>, rows: seq<Bar>, bars: seq<Bar>, span: Span, floor: int, now: int)
    requires Covers(history, bars, span, floor, now) && AscendingBars(history) && forall b :: b in history ==> Sane(b)
    requires floor == (if rows == [] then DEEP_START_MS else rows[|rows| - 1].openMs)
    ensures Feeds(history, rows, bars, span, now)
  {
    hide Sane, CloseOf, AscendingBars;
    var lo: nat :| Complete(history, bars, span, floor, now, lo);
    forall b | b in history && ClosedBy(b, span, now) ensures b in bars && Sane(b) {
      var i :| lo <= i < |bars| && bars[i].openMs <= now && Snapshot(b, bars[i], span, now);
    }
    forall b | b in bars && Sane(b) && Pending(b, rows, span, now)
      && (rows != [] || DEEP_START_MS <= b.openMs || (history != [] && history[0].openMs <= b.openMs))
      ensures b in history
    {
      var k :| 0 <= k < |bars| && bars[k] == b;
      OpenBeforeClose(b, span, now);
      if k < lo && history != [] {
        assert history[0] in history;
        var i :| lo <= i < |bars| && bars[i].openMs <= now && Snapshot(history[0], bars[i], span, now);
        DistinctOpens(bars, k, i);
      }
    }
  }

  lemma OpenBeforeClose(b: Bar, span: Span, now: int)
    requires ClosedBy(b, span, now)
    ensures b.openMs <= now
  {
    if span == Fixed(0) { } else { CloseAfterOpen(b.openMs, span); }
  }

  /** An empty page means every closed bar is in. */
  lemma NothingPending(history: seq<Bar>, rows: seq<Bar>, bars: seq<Bar>, span: Span, now: int)
    requires GapFree(rows, bars) && Feeds(history, rows, bars, span, now)
    requires IsNextPage([], history, rows, span, now)
    ensures HoldsClosed(rows, bars, span, now)
  {
    hide Sane, CloseOf, AscendingBars;
  }

  /** The raw store drops a row whose content it already holds. */
  function StoreAll(rows: seq<Bar>, page: seq<Bar>): (rows': seq<Bar>) {
    if page == [] then rows
    else
      var front := StoreAll(rows, page[..|page| - 1]);
      if page[|page| - 1] in front then front else front + [page[|page| - 1]]
  }

  lemma {:induction false} StoreAllAppends(rows: seq<Bar>, page: seq<Bar>)
    requires AscendingBars(rows + page)
    ensures StoreAll(rows, page) == rows + page
  {
    if page == [] {
      assert rows + page == rows;
    } else {
      var n := |page| - 1;
      assert rows + page == rows + page[..n] + [page[n]];
      assert rows + page[..n] == (rows + page)[..|rows| + n];
      StoreAllAppends(rows, page[..n]);
      var all := rows + page;
      forall i | 0 <= i < |rows| + n ensures (rows + page[..n])[i] != page[n] {
        assert all[i].openMs < all[|rows| + n].openMs && all[i] == (rows + page[..n])[i];
      }
    }
  }

  // ---- the driver ---------------------------------------------------------

  /** The declared timeframes in first-seen order. */
  function Timeframes(cells: seq<Cell>): (names: seq<string>)
    ensures forall cell :: cell in cells ==> cell.timeframe in names
    ensures forall name :: name in names ==> exists cell :: cell in cells && cell.timeframe == name
  {
    if cells == [] then []
    else
      var front := Timeframes(cells[..|cells| - 1]);
      if cells[|cells| - 1].timeframe in front then front else front + [cells[|cells| - 1].timeframe]
  }

  function RowsIn(store: map<Cell, seq<Bar>>, cell: Cell): (rows: seq<Bar>) {
    if cell in store then store[cell] else []
  }

  function BoundaryIn(boundaries: map<string, int>, timeframe: string): (ms: int) {
    if timeframe in boundaries then boundaries[timeframe] else -1
  }

  /** How one page of a cell ends. */
  datatype PageEnd = More | Finished | GaveUp

  class BootstrapService {
    const source: KlineSource
    const cells: seq<Cell>
    var store: map<Cell, seq<Bar>>
    var boundaries: map<string, int>

    /** A process starts on the store it finds, with no boundary recorded. */
    constructor (source: KlineSource, cells: seq<Cell>, store: map<Cell, seq<Bar>>)
      ensures this.source == source && this.cells == cells && this.store == store && boundaries == map[]
    {
      this.source, this.cells, this.store, boundaries := source, cells, store, map[];
    }

    /** Row by row; the store may fail before any row, and what was written stays. `raises`
        says so for the cycle's rows, of which `from` were written before these. */
    method Ingest(cell: Cell, rows: seq<Bar>, raises: nat -> bool, from: nat) returns (ok: bool, k: nat)
      modifies this`store
      ensures k <= |rows| && (ok <==> k == |rows|) && (forall i: nat :: from <= i < from + k ==> !raises(i)) && (!ok ==> raises(from + k))
      ensures store == old(store)[cell := StoreAll(RowsIn(old(store), cell), rows[..k])] || (k == 0 && store == old(store))
    {
      k := 0;
      while k < |rows|
        invariant 0 <= k <= |rows| && forall i: nat :: from <= i < from + k ==> !raises(i)
        invariant store == old(store)[cell := StoreAll(RowsIn(old(store), cell), rows[..k])] || (k == 0 && store == old(store))
      {
        if raises(from + k) { return false, k; }
        var stored := RowsIn(store, cell);
        assert rows[..k + 1][..k] == rows[..k];
        store := store[cell := if rows[k] in stored then stored else stored + [rows[k]]];
        k := k + 1;
      }
      return true, k;
    }

    /** Between two pages of one cell. */
    ghost predicate BetweenPages(cell: Cell, now: int, bars: seq<Bar>, before: seq<Bar>, frontier: Option<int>)
      reads this, source
    {
      && source.Valid()
      && cell in source.frontiers && source.frontiers[cell] == frontier
      && cell in source.floors && source.floors[cell] == frontier
      && (cell in source.history ==> cell in source.historyEnd && source.historyEnd[cell] == now)
      && InCycle(bars, SpanFor(cell), now, before, RowsIn(store, cell), frontier, MarkIn(source.servedUpto, cell), HistoryIn(source.history, cell))
    }

    ghost function Left(cell: Cell, now: int, frontier: Option<int>): (left: (nat, nat))
      reads source
    {
      LeftToServe(HistoryIn(source.history, cell), frontier, MarkIn(source.servedUpto, cell), SpanFor(cell), now)
    }

    /** One page fetched and ingested. Any fault gives up, with its cause; an empty page
        finishes. `written` rows of the cycle are in the store before it. */
    method CatchUpPage(cell: Cell, cursor: int, now: int, venue: Venue, faults: Faults, written: nat,
                       ghost bars: seq<Bar>, ghost before: seq<Bar>, ghost frontier: Option<int>, ghost first: nat)
      returns (end: PageEnd, next: int, written': nat, ghost cause: Option<Cause>)
      requires BetweenPages(cell, now, bars, before, frontier) && TailAligned(venue, bars, SpanFor(cell), now)
      requires first <= source.calls
      modifies this`store, source
      ensures source.Valid() && (store == old(store) || (cell in store && store == old(store)[cell := store[cell]]))
      ensures source.calls >= old(source.calls) && source.pagesServed >= old(source.pagesServed)
      ensures CellStep(bars, SpanFor(cell), now, before, RowsIn(store, cell), if end.Finished? then Done else Failed)
      ensures written <= written' <= written + 1000 && |RowsIn(store, cell)| == |RowsIn(old(store), cell)| + written' - written
      ensures forall i :: written <= i < written' ==> !faults.row(i)
      ensures cause.Some? <==> end.GaveUp?
      ensures cause.Some? ==> Happened(cause.value, faults, venue, cell, now, first, source.slots, source.maxPages, source.pagesServed)
      ensures cause.Some? ==> cause.value == RowFailed(written') || (!cause.value.RowFailed? && store == old(store))
      ensures end.Finished? ==> !faults.flush
      ensures end.More? ==> BetweenPages(cell, now, bars, before, frontier) && next > cursor
      ensures end.More? ==>
                var was, left := old(Left(cell, now, frontier)), Left(cell, now, frontier); left.0 < was.0 || (left.0 == was.0 && left.1 < was.1)
    {
      hide AscendingBars, Sane, TailAligned, Covers, Eligible, GapFree, InCycle, StoreAll, HoldsClosed, Extended, CellStep, CloseOf, Take, Feeds, SpanFor;
      hide VenueFails, Happened;
      ghost var span, rows := SpanFor(cell), RowsIn(store, cell);
      ghost var served, had := MarkIn(source.servedUpto, cell), HistoryIn(source.history, cell);
      next, written', cause := cursor, written, None;
      Between(bars, span, now, before, rows, frontier, served, had);
      ghost var asked := source.calls;
      var page := source.Call(cell, cursor, now, PAGE_LIMIT, venue, bars);
      if !page.Served? {
        ghost var why := WhyNotServed(page, faults, venue, cell, now, first, asked, source.calls, source.slots, source.maxPages, source.pagesServed);
        cause := Some(why);
        return GaveUp, next, written, cause;
      }
      ghost var walked := source.history[cell];
      TakeAtMost(Eligible(walked, frontier, served, span, now), PAGE_LIMIT);
      assert had.Some? ==> had.value == walked;
      if page.rows == [] {
        CellFinishes(bars, span, now, before, rows, frontier, served, had, walked);
        if faults.flush {
          FlushHappened(faults, venue, cell, now, first, source.slots, source.maxPages, source.pagesServed);
          return GaveUp, next, written, Some(FlushFailed);
        }
        return Finished, next, written, None;
      }
      var stored, k := Ingest(cell, page.rows, faults.row, written);
      PageStored(bars, span, now, before, rows, frontier, served, had, walked, page.rows, k);
      assert k == 0 ==> rows + page.rows[..k] == rows;
      assert RowsIn(store, cell) == rows + page.rows[..k];
      written' := written + k;
      if !stored {
        RowHappened(faults, venue, cell, now, first, source.slots, source.maxPages, source.pagesServed, written');
        return GaveUp, next, written', Some(RowFailed(written'));
      }
      assert page.rows[..k] == page.rows;
      // The driver refuses a cursor that does not advance; it always does.
      return More, page.nextCursor, written', None;
    }

    /** One cell of one cycle: frontier from the store, then page by page until an empty
        page; a fault ends the cell and leaves what was stored, and nothing but a fault
        does. */
    method CatchUpCell(cell: Cell, now: int, venue: Venue, faults: Faults, ghost bars: seq<Bar>) returns (ok: bool, ghost cause: Option<Cause>)
      requires source.Valid() && Series(bars) && TailAligned(venue, bars, SpanFor(cell), now)
      requires GapFree(RowsIn(store, cell), bars)
      modifies this`store, source
      ensures source.Valid() && source.calls >= old(source.calls) && source.pagesServed >= old(source.pagesServed)
      ensures store == old(store) || (cell in store && store == old(store)[cell := store[cell]])
      ensures CellStep(bars, SpanFor(cell), now, RowsIn(old(store), cell), RowsIn(store, cell), if ok then Done else Failed)
      ensures ok <==> cause.None?
      ensures cause.Some? ==>
                Happened(cause.value, faults, venue, cell, now, old(source.calls), source.slots, source.maxPages, source.pagesServed)
      ensures var n := |RowsIn(store, cell)| - |RowsIn(old(store), cell)|;
              && n >= 0 && (forall i :: 0 <= i < n ==> !faults.row(i))
              && (cause.Some? && cause.value.RowFailed? ==> cause.value.row == n)
              && (faults.read ==> cause == Some(ReadFailed) && n == 0) && (ok ==> !faults.read && !faults.flush)
      ensures Untroubled(faults, venue, cell, now, source.maxPages, source.pagesServed) ==> ok
    {
      hide AscendingBars, TailAligned, GapFree, InCycle, Printable, StoreFrontier, CellStep, SpanFor, LeftToServe, Happened, Untroubled;
      ghost var before := RowsIn(store, cell);
      SeriesRows(before, bars);
      CycleStarts(bars, SpanFor(cell), now, before);
      if faults.read {
        ReadHappened(faults, venue, cell, now, source.calls, source.slots, source.maxPages, source.pagesServed);
        TroubledIsNotUntroubled(faults, venue, cell, now, source.calls, source.slots, source.maxPages, source.pagesServed);
        return false, Some(ReadFailed);
      }
      var frontier := StoreFrontier(RowsIn(store, cell));
      source.BeginCatchUp(cell, frontier);
      var cursor := if frontier.Some? then frontier.value else DEEP_START_MS;
      var written: nat := 0;
      while true
        invariant store == old(store) || (cell in store && store == old(store)[cell := store[cell]])
        invariant BetweenPages(cell, now, bars, before, frontier)
        invariant source.calls >= old(source.calls) && source.pagesServed >= old(source.pagesServed)
        invariant |RowsIn(store, cell)| == |before| + written && forall i :: 0 <= i < written ==> !faults.row(i)
        decreases Left(cell, now, frontier).0, Left(cell, now, frontier).1
      {
        var end, next;
        end, next, written, cause := CatchUpPage(cell, cursor, now, venue, faults, written, bars, before, frontier, old(source.calls));
        if end.GaveUp? {
          TroubledIsNotUntroubled(faults, venue, cell, now, old(source.calls), source.slots, source.maxPages, source.pagesServed);
        }
        if !end.More? { return end.Finished?, cause; }
        cursor := next;
      }
      return false, None;
    }

    /** One cycle over all declared cells. A timeframe is visited when its venue
        boundary has moved; its boundary advances only when all its cells succeeded,
        so a failed cell is visited again. */
    method CatchUp(now: int, boundaryOf: string -> int, venues: Cell -> Venue, faultsOf: Cell -> Faults, ghost series: Cell -> seq<Bar>)
      returns (checked: set<Cell>, failed: set<Cell>)
      requires source.Valid()
      requires forall cell :: cell in cells ==>
                 && Series(series(cell)) && GapFree(RowsIn(store, cell), series(cell))
                 && TailAligned(venues(cell), series(cell), SpanFor(cell), now)
      modifies this, source
      ensures source.Valid()
      ensures CycleStep(cells, series, now, old(store), store, checked, failed)
      ensures Visits(cells, Timeframes(cells), boundaryOf, old(boundaries), boundaries, checked, failed)
      ensures FailForCause(checked, failed, faultsOf, venues, now, old(source.calls), source.slots, source.maxPages, source.pagesServed)
    {
      hide Series, GapFree, TailAligned, SpanFor, CellStep, StoreAll, CycleStep, Visits, Troubled;
      checked, failed := {}, {};
      var names := Timeframes(cells);
      NamesAreDistinct(cells);
      CycleBegins(cells, series, now, store);
      VisitsBegin(cells, boundaryOf, boundaries);
      var t := 0;
      while t < |names|
        invariant 0 <= t <= |names|
        invariant source.Valid() && CycleStep(cells, series, now, old(store), store, checked, failed)
        invariant Visits(cells, names[..t], boundaryOf, old(boundaries), boundaries, checked, failed)
        invariant source.calls >= old(source.calls)
        invariant FailForCause(checked, failed, faultsOf, venues, now, old(source.calls), source.slots, source.maxPages, source.pagesServed)
      {
        var tf := names[t];
        assert tf !in names[..t];
        assert names[..t + 1] == names[..t] + [tf];
        VisitsGrow(cells, names[..t], tf, boundaryOf, old(boundaries), boundaries, checked, failed);
        if boundaryOf(tf) > BoundaryIn(boundaries, tf) {
          var successful;
          checked, failed, successful := CatchUpTimeframe(tf, now, venues, faultsOf, series, checked, failed, old(store), old(source.calls));
          if successful {
            boundaries := boundaries[tf := boundaryOf(tf)];
          }
        }
        t := t + 1;
      }
      assert names[..|names|] == names;
    }

    method CatchUpTimeframe(tf: string, now: int, venues: Cell -> Venue, faultsOf: Cell -> Faults, ghost series: Cell -> seq<Bar>,
                            checked: set<Cell>, failed: set<Cell>, ghost before: map<Cell, seq<Bar>>, ghost first: nat)
      returns (checked': set<Cell>, failed': set<Cell>, successful: bool)
      requires source.Valid() && failed !! CellsOf(cells, tf)
      requires forall cell :: cell in cells ==> Series(series(cell)) && TailAligned(venues(cell), series(cell), SpanFor(cell), now)
      requires CycleStep(cells, series, now, before, store, checked, failed)
      requires first <= source.calls
      requires FailForCause(checked, failed, faultsOf, venues, now, first, source.slots, source.maxPages, source.pagesServed)
      modifies this`store, source
      ensures source.Valid() && CycleStep(cells, series, now, before, store, checked', failed')
      ensures failed <= failed' <= failed + CellsOf(cells, tf)
      ensures checked' == checked + CellsOf(cells, tf)
      ensures successful <==> failed' !! CellsOf(cells, tf)
      ensures source.calls >= old(source.calls)
      ensures FailForCause(checked', failed', faultsOf, venues, now, first, source.slots, source.maxPages, source.pagesServed)
    {
      hide Series, GapFree, TailAligned, SpanFor, CellStep, StoreAll, CycleStep, FailForCause, Happened;
      checked', failed', successful := checked, failed, true;
      var i := 0;
      while i < |cells|
        invariant 0 <= i <= |cells|
        invariant source.Valid() && CycleStep(cells, series, now, before, store, checked', failed')
        invariant failed <= failed' <= failed + CellsOf(cells[..i], tf)
        invariant checked' == checked + CellsOf(cells[..i], tf)
        invariant successful <==> failed' == failed
        invariant source.calls >= old(source.calls)
        invariant FailForCause(checked', failed', faultsOf, venues, now, first, source.slots, source.maxPages, source.pagesServed)
      {
        var cell := cells[i];
        assert cells[..i + 1] == cells[..i] + [cell];
        if cell.timeframe == tf {
          assert cell in cells;
          ghost var had := store;
          CycleKeeps(cells, series, now, before, store, checked', failed', cell);
          ghost var asked, served := source.calls, source.pagesServed;
          var ok, cause := CatchUpCell(cell, now, venues(cell), faultsOf(cell), series(cell));
          // The accounting after the pages may fail on its own.
          if faultsOf(cell).account { ok := false; }
          CycleGrows(cells, series, now, before, had, store, checked', failed', cell, if ok then Done else Failed);
          CausesGrow(checked', failed', faultsOf, venues, now, first, asked, source.slots, source.maxPages, served, source.pagesServed,
                     cell, cause);
          checked' := checked' + {cell};
          if !ok {
            assert cell in CellsOf(cells, tf);
            failed' := failed' + {cell};
            successful := false;
          }
        }
        i := i + 1;
      }
      assert cells[..|cells|] == cells;
      if !successful {
        ghost var cell :| cell in failed' && cell !in failed;
        assert cell in failed' * CellsOf(cells, tf);
      }
    }
  }

  lemma TakeAtMost(rows: seq<Bar>, n: nat)
    ensures |Take(rows, n)| <= n
  {}

  lemma ReadHappened(faults: Faults, venue: Venue, cell: Cell, now: int, first: nat, slots: nat, maxPages: Option<nat>, served: nat)
    ensures Happened(ReadFailed, faults, venue, cell, now, first, slots, maxPages, served) <==> faults.read
  {}

  lemma FlushHappened(faults: Faults, venue: Venue, cell: Cell, now: int, first: nat, slots: nat, maxPages: Option<nat>, served: nat)
    ensures Happened(FlushFailed, faults, venue, cell, now, first, slots, maxPages, served) <==> faults.flush
  {}

  lemma RowHappened(faults: Faults, venue: Venue, cell: Cell, now: int, first: nat, slots: nat, maxPages: Option<nat>, served: nat, n: nat)
    ensures Happened(RowFailed(n), faults, venue, cell, now, first, slots, maxPages, served) <==> faults.row(n)
  {}

  lemma WhyNotServed(page: PageResult, faults: Faults, venue: Venue, cell: Cell, now: int, first: nat, asked: nat, next: nat,
                     slots: nat, maxPages: Option<nat>, served: nat) returns (cause: Cause)
    requires !page.Served? && first <= asked <= next
    requires page.BudgetReached? ==> maxPages.Some? && served >= maxPages.value
    requires page.BadTimeframe? ==> SpanOf(cell.timeframe).None?
    requires page.BackOff? || page.FetchRefused? ==> VenueFails(page, venue, asked, next, now, slots)
    ensures Happened(cause, faults, venue, cell, now, first, slots, maxPages, served) && !cause.RowFailed? && !cause.ReadFailed?
  {
    match page {
      case BudgetReached => cause := PageBudget;
      case BadTimeframe => cause := Cause.UnknownTimeframe;
      case BackOff =>
        var start, to :| FailsBy(page, venue, asked, next, start, to, now, slots);
        cause := RateLimits(next - 1, start, to);
      case FetchRefused(_) =>
        var start, to :| FailsBy(page, venue, asked, next, start, to, now, slots);
        cause := VenueRefused(next - 1, start, to);
    }
  }

  /** A cell the world gives no cause to fail at all. */
  ghost predicate Untroubled(faults: Faults, venue: Venue, cell: Cell, now: int, maxPages: Option<nat>, served: nat) {
    && !faults.read && !faults.flush && !faults.account && (forall n :: !faults.row(n))
    && (forall call, start, to :: to <= now ==> venue(call, start, to).Page?)
    && SpanOf(cell.timeframe).Some? && (maxPages.Some? ==> served < maxPages.value)
  }

  lemma UntroubledHasNoCause(cause: Cause, faults: Faults, venue: Venue, cell: Cell, now: int, first: nat, slots: nat, maxPages: Option<nat>, served: nat)
    requires Untroubled(faults, venue, cell, now, maxPages, served)
    ensures !Happened(cause, faults, venue, cell, now, first, slots, maxPages, served)
  {
    hide LimitedAt;
    if Happened(cause, faults, venue, cell, now, first, slots, maxPages, served) {
      match cause {
        case RateLimits(call, start, to) => LimitedCall(venue, first, call, start, to, slots);
        case _ =>
      }
    }
  }

  lemma LimitedCall(venue: Venue, first: nat, call: nat, start: int, to: int, slots: nat)
    requires LimitedAt(venue, first, call, start, to, slots)
    ensures venue(call, start, to).RateLimited?
  {
  }

  /** Some cause for this cell was given in the cycle, or its accounting raised. */
  ghost predicate Troubled(faults: Faults, venue: Venue, cell: Cell, now: int, first: nat, slots: nat, maxPages: Option<nat>, served: nat) {
    faults.account || exists cause :: Happened(cause, faults, venue, cell, now, first, slots, maxPages, served)
  }

  /** Calls only go on and pages only add up: a cause in part of a cycle is one in all of it. */
  lemma TroubleStays(cause: Cause, faults: Faults, venue: Venue, cell: Cell, now: int, first: nat, first': nat, slots: nat,
                     maxPages: Option<nat>, served: nat, served': nat)
    requires Happened(cause, faults, venue, cell, now, first, slots, maxPages, served) && first' <= first && served <= served'
    ensures Happened(cause, faults, venue, cell, now, first', slots, maxPages, served')
  {}

  /** The failed cells of a cycle, and no others: each met a cause, and of the rest none did. */
  ghost predicate FailForCause(checked: set<Cell>, failed: set<Cell>, faultsOf: Cell -> Faults, venues: Cell -> Venue, now: int,
                               first: nat, slots: nat, maxPages: Option<nat>, served: nat) {
    && (forall cell :: cell in failed ==> Troubled(faultsOf(cell), venues(cell), cell, now, first, slots, maxPages, served))
    && (forall cell :: cell in checked - failed ==> !faultsOf(cell).read && !faultsOf(cell).flush && !faultsOf(cell).account)
    && (forall cell :: cell in checked && Untroubled(faultsOf(cell), venues(cell), cell, now, maxPages, served) ==> cell !in failed)
  }

  lemma CausesGrow(checked: set<Cell>, failed: set<Cell>, faultsOf: Cell -> Faults, venues: Cell -> Venue, now: int, first: nat, asked: nat,
                   slots: nat, maxPages: Option<nat>, served: nat, served': nat, cell: Cell, cause: Option<Cause>)
    requires FailForCause(checked, failed, faultsOf, venues, now, first, slots, maxPages, served) && served <= served' && first <= asked
    requires cause.Some? ==> Happened(cause.value, faultsOf(cell), venues(cell), cell, now, asked, slots, maxPages, served')
    requires cause.None? ==> !faultsOf(cell).read && !faultsOf(cell).flush
    ensures var failed' := if cause.Some? || faultsOf(cell).account then failed + {cell} else failed;
            FailForCause(checked + {cell}, failed', faultsOf, venues, now, first, slots, maxPages, served')
  {
    hide Happened, Untroubled;
    var failed' := if cause.Some? || faultsOf(cell).account then failed + {cell} else failed;
    if cause.Some? { TroubleStays(cause.value, faultsOf(cell), venues(cell), cell, now, asked, first, slots, maxPages, served', served'); }
    forall c | c in failed' ensures Troubled(faultsOf(c), venues(c), c, now, first, slots, maxPages, served') {
      if c in failed && !faultsOf(c).account {
        var why :| Happened(why, faultsOf(c), venues(c), c, now, first, slots, maxPages, served);
        TroubleStays(why, faultsOf(c), venues(c), c, now, first, first, slots, maxPages, served, served');
      }
    }
    forall c | c in failed' ensures !Untroubled(faultsOf(c), venues(c), c, now, maxPages, served') {
      TroubledIsNotUntroubled(faultsOf(c), venues(c), c, now, first, slots, maxPages, served');
    }
  }

  lemma TroubledIsNotUntroubled(faults: Faults, venue: Venue, cell: Cell, now: int, first: nat, slots: nat, maxPages: Option<nat>, served: nat)
    requires Troubled(faults, venue, cell, now, first, slots, maxPages, served)
    ensures !Untroubled(faults, venue, cell, now, maxPages, served)
  {
    hide Happened;
    if !faults.account {
      var cause :| Happened(cause, faults, venue, cell, now, first, slots, maxPages, served);
      if Untroubled(faults, venue, cell, now, maxPages, served) {
        UntroubledHasNoCause(cause, faults, venue, cell, now, first, slots, maxPages, served);
      }
    }
  }

  function CellsOf(cells: seq<Cell>, tf: string): (s: set<Cell>) { set cell | cell in cells && cell.timeframe == tf }

  /** Which cells a cycle visits, and which boundaries it moves: a timeframe is due
      when its venue boundary has passed the recorded one, and the record moves only
      when no cell of it failed. */
  ghost predicate Visits(cells: seq<Cell>, names: seq<string>, boundaryOf: string -> int,
                         before: map<string, int>, after: map<string, int>, checked: set<Cell>, failed: set<Cell>) {
    && failed <= checked
    && (forall cell :: cell in checked <==>
          && cell in cells && cell.timeframe in names
          && boundaryOf(cell.timeframe) > if cell.timeframe in before then before[cell.timeframe] else -1)
    && (forall tf :: BoundaryIn(after, tf)
          == if tf in names && boundaryOf(tf) > BoundaryIn(before, tf) && failed !! CellsOf(cells, tf)
             then boundaryOf(tf) else BoundaryIn(before, tf))
  }

  lemma VisitsBegin(cells: seq<Cell>, boundaryOf: string -> int, boundaries: map<string, int>)
    ensures Visits(cells, [], boundaryOf, boundaries, boundaries, {}, {})
  {
  }

  lemma VisitsGrow(cells: seq<Cell>, names: seq<string>, tf: string, boundaryOf: string -> int,
                   before: map<string, int>, after: map<string, int>, checked: set<Cell>, failed: set<Cell>)
    requires Visits(cells, names, boundaryOf, before, after, checked, failed) && tf !in names
    ensures failed !! CellsOf(cells, tf)
    ensures !(boundaryOf(tf) > BoundaryIn(after, tf)) ==>
              Visits(cells, names + [tf], boundaryOf, before, after, checked, failed)
    ensures boundaryOf(tf) > BoundaryIn(after, tf) ==>
              forall failed' :: failed <= failed' <= failed + CellsOf(cells, tf) ==>
                Visits(cells, names + [tf], boundaryOf, before,
                       if failed' !! CellsOf(cells, tf) then after[tf := boundaryOf(tf)] else after,
                       checked + CellsOf(cells, tf), failed')
  {
    assert failed !! CellsOf(cells, tf);
    forall failed' | boundaryOf(tf) > BoundaryIn(after, tf) && failed <= failed' <= failed + CellsOf(cells, tf)
      ensures Visits(cells, names + [tf], boundaryOf, before,
                     if failed' !! CellsOf(cells, tf) then after[tf := boundaryOf(tf)] else after,
                     checked + CellsOf(cells, tf), failed')
    {
      forall name | name != tf ensures failed' !! CellsOf(cells, name) <==> failed !! CellsOf(cells, name) {
      }
    }
  }

  function OutcomeOf(cell: Cell, checked: set<Cell>, failed: set<Cell>): (o: Outcome) {
    if cell in failed then Failed else if cell in checked then Done else Untouched
  }

  /** What one cycle may do to the whole store. */
  ghost predicate CycleStep(cells: seq<Cell>, series: Cell -> seq<Bar>, now: int, before: map<Cell, seq<Bar>>, after: map<Cell, seq<Bar>>,
                            checked: set<Cell>, failed: set<Cell>) {
    && (forall cell :: cell in cells ==>
          CellStep(series(cell), SpanFor(cell), now, RowsIn(before, cell), RowsIn(after, cell), OutcomeOf(cell, checked, failed)))
    && (forall cell :: cell !in cells ==> RowsIn(after, cell) == RowsIn(before, cell))
  }

  lemma {:induction false} NamesAreDistinct(cells: seq<Cell>)
    ensures forall i, j :: 0 <= i < j < |Timeframes(cells)| ==> Timeframes(cells)[i] != Timeframes(cells)[j]
  {
    if cells != [] { NamesAreDistinct(cells[..|cells| - 1]); }
  }

  lemma CycleBegins(cells: seq<Cell>, series: Cell -> seq<Bar>, now: int, store: map<Cell, seq<Bar>>)
    requires forall cell :: cell in cells ==> GapFree(RowsIn(store, cell), series(cell))
    ensures CycleStep(cells, series, now, store, store, {}, {})
  {
    hide GapFree;
  }

  lemma CycleKeeps(cells: seq<Cell>, series: Cell -> seq<Bar>, now: int, before: map<Cell, seq<Bar>>, store: map<Cell, seq<Bar>>,
                   checked: set<Cell>, failed: set<Cell>, cell: Cell)
    requires CycleStep(cells, series, now, before, store, checked, failed) && cell in cells
    ensures GapFree(RowsIn(store, cell), series(cell))
  {
    hide GapFree;
  }

  lemma CycleGrows(cells: seq<Cell>, series: Cell -> seq<Bar>, now: int, before: map<Cell, seq<Bar>>,
                   mid: map<Cell, seq<Bar>>, after: map<Cell, seq<Bar>>,
                   checked: set<Cell>, failed: set<Cell>, cell: Cell, outcome: Outcome)
    requires CycleStep(cells, series, now, before, mid, checked, failed) && cell in cells && !outcome.Untouched?
    requires after == mid || (cell in after && after == mid[cell := after[cell]])
    requires CellStep(series(cell), SpanFor(cell), now, RowsIn(mid, cell), RowsIn(after, cell), outcome)
          || CellStep(series(cell), SpanFor(cell), now, RowsIn(mid, cell), RowsIn(after, cell), Done)
    ensures CycleStep(cells, series, now, before, after, checked + {cell}, if outcome.Failed? then failed + {cell} else failed)
  {
    hide GapFree, HoldsClosed, SpanFor;
    var checked', failed' := checked + {cell}, if outcome.Failed? then failed + {cell} else failed;
    forall c | c in cells
      ensures CellStep(series(c), SpanFor(c), now, RowsIn(before, c), RowsIn(after, c), OutcomeOf(c, checked', failed'))
    {
      if c != cell { assert RowsIn(after, c) == RowsIn(mid, c); }
    }
  }

  function HistoryIn(history: map<Cell, seq<Bar>>, cell: Cell): (h: Option<seq<Bar>>) {
    if cell in history then Some(history[cell]) else None
  }

  function LeftToServe(history: Option<seq<Bar>>, frontier: Option<int>, served: Option<int>, span: Span, now: int): (left: (nat, nat)) {
    match history
    case None => (1, 0)
    case Some(walked) => (0, |Eligible(walked, frontier, served, span, now)|)
  }

  /** The part of a cell step that holds at every moment of the cycle. */
  ghost predicate Extended(bars: seq<Bar>, span: Span, now: int, before: seq<Bar>, rows: seq<Bar>) {
    && before <= rows && GapFree(rows, bars)
    && forall b :: b in rows ==> b in before || ClosedBy(b, span, now)
  }

  /** Where a cell stands between two pages. */
  ghost predicate InCycle(bars: seq<Bar>, span: Span, now: int, before: seq<Bar>, rows: seq<Bar>,
                          frontier: Option<int>, served: Option<int>, history: Option<seq<Bar>>) {
    && AscendingBars(bars) && Extended(bars, span, now, before, rows)
    && frontier == LastOpen(before) && MarksMatch(frontier, served, rows)
    && (history.None? ==> rows == before)
    && (history.Some? ==> Feeds(history.value, rows, bars, span, now))
  }

  lemma CycleStarts(bars: seq<Bar>, span: Span, now: int, before: seq<Bar>)
    requires AscendingBars(bars) && GapFree(before, bars)
    ensures InCycle(bars, span, now, before, before, LastOpen(before), None, None)
    ensures Extended(bars, span, now, before, before)
    ensures CellStep(bars, span, now, before, before, Failed)
  {
  }

  lemma Between(bars: seq<Bar>, span: Span, now: int, before: seq<Bar>, rows: seq<Bar>,
                frontier: Option<int>, served: Option<int>, history: Option<seq<Bar>>)
    requires InCycle(bars, span, now, before, rows, frontier, served, history)
    ensures CellStep(bars, span, now, before, rows, Failed)
  {
    hide GapFree, ClosedBy;
  }

  ghost predicate Usable(bars: seq<Bar>, span: Span, now: int, frontier: Option<int>, had: Option<seq<Bar>>, walked: seq<Bar>) {
    && AscendingBars(walked) && (forall b :: b in walked ==> Sane(b))
    && (if had.Some? then had.value == walked
        else Covers(walked, bars, span, if frontier.Some? then frontier.value else DEEP_START_MS, now))
  }

  lemma HistoryFeeds(bars: seq<Bar>, span: Span, now: int, before: seq<Bar>, rows: seq<Bar>,
                     frontier: Option<int>, served: Option<int>, had: Option<seq<Bar>>, walked: seq<Bar>)
    requires InCycle(bars, span, now, before, rows, frontier, served, had)
    requires Usable(bars, span, now, frontier, had, walked)
    ensures Feeds(walked, rows, bars, span, now)
    ensures IsNextPage(Take(Eligible(walked, frontier, served, span, now), PAGE_LIMIT), walked, rows, span, now)
  {
    hide GapFree, Feeds, Covers, CloseOf, Sane, AscendingBars, IsNextPage;
    if had.None? {
      WalkFeeds(walked, rows, bars, span, if frontier.Some? then frontier.value else DEEP_START_MS, now);
    }
    ServedIsNextPage(walked, frontier, served, rows, PAGE_LIMIT, span, now);
  }

  /** An empty page is the only way a cell finishes, and then nothing is missing. */
  lemma CellFinishes(bars: seq<Bar>, span: Span, now: int, before: seq<Bar>, rows: seq<Bar>,
                     frontier: Option<int>, served: Option<int>, had: Option<seq<Bar>>, walked: seq<Bar>)
    requires InCycle(bars, span, now, before, rows, frontier, served, had)
    requires Usable(bars, span, now, frontier, had, walked)
    requires Take(Eligible(walked, frontier, served, span, now), PAGE_LIMIT) == []
    ensures CellStep(bars, span, now, before, rows, Done)
  {
    hide GapFree, Feeds, Covers, CloseOf, Sane, AscendingBars, IsNextPage, Eligible, HoldsClosed;
    HistoryFeeds(bars, span, now, before, rows, frontier, served, had, walked);
    NothingPending(walked, rows, bars, span, now);
  }

  /** Whatever prefix of the page got stored, the law holds; a whole page leads to
      the next one, with less left to serve. */
  lemma PageStored(bars: seq<Bar>, span: Span, now: int, before: seq<Bar>, rows: seq<Bar>,
                   frontier: Option<int>, served: Option<int>, had: Option<seq<Bar>>, walked: seq<Bar>, page: seq<Bar>, k: nat)
    requires InCycle(bars, span, now, before, rows, frontier, served, had)
    requires Usable(bars, span, now, frontier, had, walked)
    requires page == Take(Eligible(walked, frontier, served, span, now), PAGE_LIMIT) && page != [] && k <= |page|
    ensures StoreAll(rows, page[..k]) == rows + page[..k]
    ensures Extended(bars, span, now, before, rows + page[..k])
    ensures CellStep(bars, span, now, before, rows + page[..k], Failed)
    ensures k == |page| ==> InCycle(bars, span, now, before, rows + page[..k], frontier, Some(page[|page| - 1].openMs), Some(walked))
    ensures LeftToServe(Some(walked), frontier, Some(page[|page| - 1].openMs), span, now).1
            < LeftToServe(Some(walked), frontier, served, span, now).1
  {
    hide GapFree, Feeds, Covers, CloseOf, Sane, AscendingBars, IsNextPage, Eligible;
    HistoryFeeds(bars, span, now, before, rows, frontier, served, had, walked);
    StoreChunk(walked, rows, page, k, bars, span, now);
    GapFreeIsAscending(rows + page[..k], bars);
    StoreAllAppends(rows, page[..k]);
    PageIsClosed(page, walked, rows, span, now);
    ServingShrinks(walked, frontier, served, rows, page, span, now);
    if k == |page| { assert page[..k] == page; }
  }

  lemma SeriesRows(rows: seq<Bar>, bars: seq<Bar>)
    requires Series(bars) && GapFree(rows, bars)
    ensures AscendingBars(bars) && AscendingBars(rows) && forall i :: 0 <= i < |rows| ==> Printable(rows[i].openMs)
    ensures StoreFrontier(rows) == LastOpen(rows)
  {
    hide Printable;
    forall i | 0 <= i < |rows| ensures Printable(rows[i].openMs) {
      assert rows[i] in bars;
    }
    FrontierIsLastRow(rows);
  }

  lemma GapFreeIsAscending(rows: seq<Bar>, bars: seq<Bar>)
    requires GapFree(rows, bars)
    ensures AscendingBars(rows)
  {
  }

  lemma PageIsClosed(page: seq<Bar>, history: seq<Bar>, rows: seq<Bar>, span: Span, now: int)
    requires IsNextPage(page, history, rows, span, now)
    ensures forall b :: b in page ==> ClosedBy(b, span, now) && After(b, LastOpen(rows))
  {
  }

  /** Serving a page moves the in-process mark to the last stored row and leaves
      strictly less to serve. */
  lemma ServingShrinks(history: seq<Bar>, frontier: Option<int>, served: Option<int>, rows: seq<Bar>, page: seq<Bar>, span: Span, now: int)
    requires AscendingBars(history) && IsNextPage(page, history, rows, span, now) && page != []
    requires MarksMatch(frontier, served, rows)
    ensures MarksMatch(frontier, Some(page[|page| - 1].openMs), rows + page)
    ensures |Eligible(history, frontier, Some(page[|page| - 1].openMs), span, now)| < |Eligible(history, frontier, served, span, now)|
  {
    hide CloseOf, Eligible, AscendingBars;
    var last := page[|page| - 1];
    assert last in page;
    var less, more := Eligible(history, frontier, Some(last.openMs), span, now), Eligible(history, frontier, served, span, now);
    EligibleRows(history, frontier, Some(last.openMs), span, now);
    EligibleRows(history, frontier, served, span, now);
    assert last in more && last !in less;
    forall b | b in less ensures b in more { }
    FewerBars(less, more, last);
  }

  function BarSet(bars: seq<Bar>): (s: set<Bar>) { set b | b in bars }

  lemma {:induction false} DistinctCount(bars: seq<Bar>)
    requires AscendingBars(bars)
    ensures |BarSet(bars)| == |bars|
  {
    if bars != [] {
      var n := |bars| - 1;
      DistinctCount(bars[..n]);
      assert BarSet(bars) == BarSet(bars[..n]) + {bars[n]};
      assert bars[n] !in bars[..n];
    }
  }

  lemma FewerBars(less: seq<Bar>, more: seq<Bar>, extra: Bar)
    requires AscendingBars(less) && AscendingBars(more)
    requires (forall b :: b in less ==> b in more) && extra in more && extra !in less
    ensures |less| < |more|
  {
    hide AscendingBars;
    DistinctCount(less);
    DistinctCount(more);
    SubsetCount(BarSet(less) + {extra}, BarSet(more));
  }

  lemma {:induction false} SubsetCount(a: set<Bar>, b: set<Bar>)
    requires a <= b
    ensures |a| <= |b|
  {
    if a != {} {
      var x :| x in a;
      SubsetCount(a - {x}, b - {x});
    }
  }

  // ---- whole histories ----------------------------------------------------

  datatype CycleMark = CycleMark(now: int, outcome: Outcome)

  /** What one cell's rows may look like over any number of cycles. */
  ghost predicate Run(bars: seq<Bar>, span: Span, states: seq<seq<Bar>>, cycles: seq<CycleMark>) {
    && AscendingBars(bars) && |states| == |cycles| + 1 && states[0] == []
    && forall k :: 0 <= k < |cycles| ==> CellStep(bars, span, cycles[k].now, states[k], states[k + 1], cycles[k].outcome)
  }

  /** Rows are only ever added, and never with a gap. */
  lemma {:induction false} RunKeepsRows(bars: seq<Bar>, span: Span, states: seq<seq<Bar>>, cycles: seq<CycleMark>, i: nat, j: nat)
    requires Run(bars, span, states, cycles) && i <= j < |states|
    ensures states[i] <= states[j] && GapFree(states[j], bars)
    decreases j
  {
    hide GapFree, HoldsClosed;
    if j == 0 {
      assert GapFree([], bars) by { EmptyStore(bars); }
    } else {
      assert CellStep(bars, span, cycles[j - 1].now, states[j - 1], states[j], cycles[j - 1].outcome);
      if i < j { RunKeepsRows(bars, span, states, cycles, i, j - 1); }
    }
  }

  lemma EmptyStore(bars: seq<Bar>)
    ensures GapFree([], bars)
  {
  }

  lemma {:induction false} StoredAfterClose(bars: seq<Bar>, span: Span, states: seq<seq<Bar>>, cycles: seq<CycleMark>, j: nat, bar: Bar)
    requires Run(bars, span, states, cycles) && j < |states| && bar in states[j]
    ensures exists k :: 0 <= k < j && ClosedBy(bar, span, cycles[k].now)
  {
    hide GapFree, HoldsClosed, ClosedBy;
    if j > 0 {
      assert CellStep(bars, span, cycles[j - 1].now, states[j - 1], states[j], cycles[j - 1].outcome);
      if bar in states[j - 1] { StoredAfterClose(bars, span, states, cycles, j - 1, bar); }
    }
  }

  function Copies(rows: seq<Bar>, bar: Bar): (n: nat) {
    if rows == [] then 0 else Copies(rows[..|rows| - 1], bar) + (if rows[|rows| - 1] == bar then 1 else 0)
  }

  lemma {:induction false} AscendingHoldsOneCopy(rows: seq<Bar>, bar: Bar)
    requires AscendingBars(rows)
    ensures Copies(rows, bar) == if bar in rows then 1 else 0
  {
    if rows != [] {
      var n := |rows| - 1;
      assert rows == rows[..n] + [rows[n]];
      AscendingHoldsOneCopy(rows[..n], bar);
    }
  }

  /** A bar of the venue, over any cycles with any failures: not stored while no
      cycle has seen it closed; stored exactly once, as its final content, from the
      first cycle on that finished the cell after it closed. */
  lemma StoredExactlyOnce(bars: seq<Bar>, span: Span, states: seq<seq<Bar>>, cycles: seq<CycleMark>, j: nat, bar: Bar)
    requires Run(bars, span, states, cycles) && j < |states|
    requires bar in bars && Sane(bar) && DEEP_START_MS <= bar.openMs
    ensures Copies(states[j], bar) <= 1
    ensures (forall k :: 0 <= k < j ==> !ClosedBy(bar, span, cycles[k].now)) ==> Copies(states[j], bar) == 0
    ensures (exists k :: 0 <= k < j && cycles[k].outcome.Done? && ClosedBy(bar, span, cycles[k].now)) ==> Copies(states[j], bar) == 1
  {
    hide CloseOf, Sane, GapFree;
    RunKeepsRows(bars, span, states, cycles, j, j);
    GapFreeIsAscending(states[j], bars);
    AscendingHoldsOneCopy(states[j], bar);
    if bar in states[j] { StoredAfterClose(bars, span, states, cycles, j, bar); }
    if k :| 0 <= k < j && cycles[k].outcome.Done? && ClosedBy(bar, span, cycles[k].now) {
      assert CellStep(bars, span, cycles[k].now, states[k], states[k + 1], cycles[k].outcome);
      RunKeepsRows(bars, span, states, cycles, k + 1, j);
    }
  }

  // ---- runs of the service ------------------------------------------------

  datatype Cycle = Cycle(now: int, checked: set<Cell>, failed: set<Cell>)

  /** A history of the store, one cycle of the service after the other, over any number of
      processes. */
  ghost predicate Cycles(cells: seq<Cell>, series: Cell -> seq<Bar>, stores: seq<map<Cell, seq<Bar>>>, cycles: seq<Cycle>) {
    && |stores| == |cycles| + 1 && stores[0] == map[]
    && forall k :: 0 <= k < |cycles| ==> CycleStep(cells, series, cycles[k].now, stores[k], stores[k + 1], cycles[k].checked, cycles[k].failed)
  }

  function RowsOver(stores: seq<map<Cell, seq<Bar>>>, cell: Cell): (states: seq<seq<Bar>>) {
    seq(|stores|, k requires 0 <= k < |stores| => RowsIn(stores[k], cell))
  }

  function MarksOver(cycles: seq<Cycle>, cell: Cell): (marks: seq<CycleMark>) {
    seq(|cycles|, k requires 0 <= k < |cycles| => CycleMark(cycles[k].now, OutcomeOf(cell, cycles[k].checked, cycles[k].failed)))
  }

  /** What the store's history shows of one declared cell is a run of that cell. */
  lemma CyclesAreRuns(cells: seq<Cell>, series: Cell -> seq<Bar>, stores: seq<map<Cell, seq<Bar>>>, cycles: seq<Cycle>, cell: Cell)
    requires Cycles(cells, series, stores, cycles) && cell in cells && AscendingBars(series(cell))
    ensures Run(series(cell), SpanFor(cell), RowsOver(stores, cell), MarksOver(cycles, cell))
  {
    hide AscendingBars, CellStep, SpanFor, OutcomeOf;
    forall k | 0 <= k < |cycles|
      ensures CellStep(series(cell), SpanFor(cell), MarksOver(cycles, cell)[k].now, RowsOver(stores, cell)[k], RowsOver(stores, cell)[k + 1],
                       MarksOver(cycles, cell)[k].outcome)
    {
      assert CycleStep(cells, series, cycles[k].now, stores[k], stores[k + 1], cycles[k].checked, cycles[k].failed);
    }
  }

  /** Over any cycles of the service, in any processes and with any failures: a sane bar of
      a declared cell is in the store at most once, not at all before a cycle saw it closed,
      and once from the first cycle after its close that checked its cell without failure. */
  lemma EveryBarOnce(cells: seq<Cell>, series: Cell -> seq<Bar>, stores: seq<map<Cell, seq<Bar>>>, cycles: seq<Cycle>, j: nat, cell: Cell, bar: Bar)
    requires Cycles(cells, series, stores, cycles) && cell in cells && AscendingBars(series(cell)) && j < |stores|
    requires bar in series(cell) && Sane(bar) && 1577836800000 <= bar.openMs
    ensures var n, close := Copies(RowsIn(stores[j], cell), bar), CloseOf(bar.openMs, SpanFor(cell));
            && n <= 1
            && ((forall k :: 0 <= k < j ==> cycles[k].now < close) ==> n == 0)
            && ((exists k :: 0 <= k < j && cell in cycles[k].checked - cycles[k].failed && close <= cycles[k].now) ==> n == 1)
  {
    hide AscendingBars, Sane, CellStep, CycleStep, SpanFor, CloseOf, Run, Cycles;
    CyclesAreRuns(cells, series, stores, cycles, cell);
    LengthsAgree(cells, series, stores, cycles);
    var states, marks := RowsOver(stores, cell), MarksOver(cycles, cell);
    StoredExactlyOnce(series(cell), SpanFor(cell), states, marks, j, bar);
    if k :| 0 <= k < j && cell in cycles[k].checked - cycles[k].failed && ClosedBy(bar, SpanFor(cell), cycles[k].now) {
      assert marks[k].outcome.Done? && marks[k].now == cycles[k].now;
    }
    if forall k :: 0 <= k < j ==> !ClosedBy(bar, SpanFor(cell), cycles[k].now) {
      assert forall k :: 0 <= k < j ==> marks[k].now == cycles[k].now;
    }
  }

  lemma LengthsAgree(cells: seq<Cell>, series: Cell -> seq<Bar>, stores: seq<map<Cell, seq<Bar>>>, cycles: seq<Cycle>)
    requires Cycles(cells, series, stores, cycles)
    ensures |stores| == |cycles| + 1
  {}

  // ---- a prefix of the venue ----------------------------------------------

  function SaneBars(bars: seq<Bar>): (s: seq<Bar>) {
    if bars == [] then []
    else SaneBars(bars[..|bars| - 1]) + (if Sane(bars[|bars| - 1]) then [bars[|bars| - 1]] else [])
  }

  lemma {:induction false} SaneBarsMembers(bars: seq<Bar>)
    requires AscendingBars(bars)
    ensures AscendingBars(SaneBars(bars)) && forall b :: b in SaneBars(bars) <==> b in bars && Sane(b)
  {
    hide Sane;
    if bars != [] {
      var n := |bars| - 1;
      SaneBarsMembers(bars[..n]);
      assert bars == bars[..n] + [bars[n]];
      forall b | b in SaneBars(bars[..n]) ensures b.openMs < bars[n].openMs {
        assert b in bars[..n];
      }
    }
  }

  /** For a venue whose bars start at the deep start, gap-free means: exactly a
      prefix of the sane history. */
  lemma GapFreeIsPrefix(rows: seq<Bar>, bars: seq<Bar>)
    requires AscendingBars(bars) && GapFree(rows, bars)
    requires forall b :: b in bars ==> DEEP_START_MS <= b.openMs
    ensures rows <= SaneBars(bars)
  {
    hide AscendingBars, GapFree, Sane, SaneBars;
    SaneBarsMembers(bars);
    GapFreeIsAscending(rows, bars);
    RowsAreSane(rows, bars, SaneBars(bars));
    AlignedPrefix(rows, SaneBars(bars), |rows|);
  }

  lemma RowsAreSane(rows: seq<Bar>, bars: seq<Bar>, sane: seq<Bar>)
    requires GapFree(rows, bars) && forall b :: b in sane <==> b in bars && Sane(b)
    requires forall b :: b in bars ==> DEEP_START_MS <= b.openMs
    ensures forall b :: b in rows ==> b in sane
    ensures forall b :: b in sane && rows != [] && b.openMs <= rows[|rows| - 1].openMs ==> b in rows
  {
    hide AscendingBars, Sane;
  }

  lemma {:induction false} AlignedPrefix(a: seq<Bar>, b: seq<Bar>, n: nat)
    requires AscendingBars(a) && AscendingBars(b) && n <= |a|
    requires forall x :: x in a ==> x in b
    requires forall y :: y in b && a != [] && y.openMs <= a[|a| - 1].openMs ==> y in a
    ensures n <= |b| && a[..n] == b[..n]
  {
    hide AscendingBars;
    if n > 0 {
      AlignedPrefix(a, b, n - 1);
      assert a[n - 1] in b;
      var j := PositionAfter(a, b, n - 1);
      OrderedAt(b, n - 1, j);
      OrderedAt(a, n - 1, |a| - 1);
      assert b[n - 1] in a;
      var m := PositionAfter(b, a, n - 1);
      OrderedAt(a, n - 1, m);
      SameOpenSameBar(b, a[n - 1], b[n - 1]);
    }
  }

  lemma OrderedAt(bars: seq<Bar>, i: nat, j: nat)
    requires AscendingBars(bars) && i <= j < |bars|
    ensures bars[i].openMs <= bars[j].openMs
  {
  }

  /** Past a common prefix, a's next bar sits in b no earlier than there. */
  lemma PositionAfter(a: seq<Bar>, b: seq<Bar>, n: nat) returns (j: nat)
    requires AscendingBars(a) && n < |a| && n <= |b| && a[..n] == b[..n] && a[n] in b
    ensures n <= j < |b| && b[j] == a[n]
  {
    j :| 0 <= j < |b| && b[j] == a[n];
    if j < n {
      assert a[..n][j] == b[..n][j];
      DistinctOpens(a, j, n);
    }
  }
}
