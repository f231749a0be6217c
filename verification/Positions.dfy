/** Positions as a fold over the ledger's fills, and the two reconciliations of the
    folded positions with what the exchange reports. */
module Positions {
  import opened Wrappers
  import opened LedgerChain
  import Shuffle

  datatype Trade = Trade(fillId: Option<string>, symbol: string, side: Side, price: real, quantity: real)

  predicate IsTrade(row: Row) { row.raw.record.event.Fill? && row.quantity.Some? && row.price.Some? }

  function TradeOf(row: Row): (t: Trade)
    requires IsTrade(row)
  {
    var e := row.raw.record.event;
    Trade(row.raw.record.fillId, if e.symbol == "" then "UNKNOWN" else e.symbol, e.side, row.price.value, row.quantity.value)
  }

  /** The fills that carry both amounts, in ledger order. */
  function Trades(rows: seq<Row>): (r: seq<Trade>) {
    if rows == [] then []
    else Trades(rows[..|rows| - 1]) + (if IsTrade(rows[|rows| - 1]) then [TradeOf(rows[|rows| - 1])] else [])
  }

  /** ONE_WAY accounts: every buy adds, every sell takes away. */
  function Signed(t: Trade): (q: real) { if Buys(t) then t.quantity else -t.quantity }

  predicate Opens(t: Trade) { t.side.BUY_OPEN? || t.side.SELL_OPEN? }

  datatype Position = Position(net: real, cost: real, entered: real, fillIds: seq<Option<string>>)

  const FLAT := Position(0.0, 0.0, 0.0, [])

  function Posted(p: Position, t: Trade): (r: Position) {
    Position(
      p.net + Signed(t),
      p.cost + (if Opens(t) then t.quantity * t.price else 0.0),
      p.entered + (if Opens(t) then t.quantity else 0.0),
      p.fillIds + [t.fillId])
  }

  /** What one trade does to the position of a symbol. */
  function Step(p: Position, t: Trade, symbol: string): (r: Position) { if t.symbol == symbol then Posted(p, t) else p }

  /** The position of one symbol after some trades. */
  function Tally(ts: seq<Trade>, symbol: string): (p: Position) {
    if ts == [] then FLAT else Step(Tally(ts[..|ts| - 1], symbol), ts[|ts| - 1], symbol)
  }

  lemma TallyStep(ts: seq<Trade>, t: Trade, symbol: string)
    ensures Tally(ts + [t], symbol) == Step(Tally(ts, symbol), t, symbol)
  {
    hide Step;
    assert (ts + [t])[..|ts|] == ts;
  }

  function Symbols(ts: seq<Trade>): (r: set<string>) { set t | t in ts :: t.symbol }

  predicate Mapped(ts: seq<Trade>) { forall i :: 0 <= i < |ts| ==> !ts[i].side.Unmapped? }

  /** Every traded symbol's position. */
  function BookOf(rows: seq<Row>): (book: map<string, Position>) {
    map s | s in Symbols(Trades(rows)) :: Tally(Trades(rows), s)
  }

  /** One more row moves a symbol's net exactly when it is a fill with both amounts under
      that symbol, or under none, which counts as UNKNOWN. */
  lemma OneMoreRow(rows: seq<Row>, row: Row, symbol: string)
    ensures var e := row.raw.record.event;
            var named := e.Fill? && (e.symbol == symbol != "" || (e.symbol == "" && symbol == "UNKNOWN"));
            Tally(Trades(rows + [row]), symbol).net
            == Tally(Trades(rows), symbol).net
               + if named && row.price.Some? && row.quantity.Some?
                 then (if e.side in {BUY_OPEN, BUY_CLOSE} then row.quantity.value else -row.quantity.value) else 0.0
  {
    hide Tally;
    assert (rows + [row])[..|rows|] == rows;
    var ts := Trades(rows);
    assert ts + [] == ts;
    if IsTrade(row) { TallyStep(ts, TradeOf(row), symbol); }
  }

  method PositionsFromLedger(rows: seq<Row>) returns (r: Result<map<string, Position>, string>)
    ensures r.Ok? <==> Mapped(Trades(rows))
    ensures r.Ok? ==> r.value == BookOf(rows)
  {
    NothingTallied();
    hide Tally, Trades, IsTrade, TradeOf, Posted, Symbols;
    var book: map<string, Position> := map[];
    var i := 0;
    while i < |rows|
      invariant 0 <= i <= |rows|
      invariant Mapped(Trades(rows[..i]))
      invariant book.Keys == Symbols(Trades(rows[..i]))
      invariant forall s :: s in book ==> book[s] == Tally(Trades(rows[..i]), s)
    {
      TradesStep(rows, i);
      ghost var before := Trades(rows[..i]);
      if IsTrade(rows[i]) {
        var t := TradeOf(rows[i]);
        if t.side.Unmapped? {
          UnmappedStays(rows, i);
          return Err("FILL_SIDE_QX");
        }
        TallyOfNothing(before, t.symbol);
        forall s
          ensures Tally(before + [t], s) == Step(Tally(before, s), t, s)
        {
          TallyStep(before, t, s);
        }
        SymbolsStep(before, t);
        book := book[t.symbol := Posted(if t.symbol in book then book[t.symbol] else FLAT, t)];
      }
      i := i + 1;
    }
    assert rows[..i] == rows;
    r := Ok(book);
  }

  lemma NothingTallied()
    ensures Trades([]) == [] && Symbols([]) == {}
  {}

  lemma SymbolsStep(ts: seq<Trade>, t: Trade)
    ensures Symbols(ts + [t]) == Symbols(ts) + {t.symbol}
  {
    forall s
      ensures s in Symbols(ts + [t]) <==> s in Symbols(ts) || s == t.symbol
    {
      assert forall u :: u in ts + [t] <==> u in ts || u == t;
    }
  }

  lemma TradesStep(rows: seq<Row>, i: nat)
    requires i < |rows|
    ensures Trades(rows[..i + 1]) == if IsTrade(rows[i]) then Trades(rows[..i]) + [TradeOf(rows[i])] else Trades(rows[..i])
  {
    assert rows[..i + 1][..i] == rows[..i];
  }

  lemma {:induction false} TallyOfNothing(ts: seq<Trade>, symbol: string)
    ensures symbol !in Symbols(ts) ==> Tally(ts, symbol) == FLAT
  {
    if ts != [] {
      TallyOfNothing(ts[..|ts| - 1], symbol);
      assert ts[|ts| - 1] in ts && forall t :: t in ts[..|ts| - 1] ==> t in ts;
    }
  }

  lemma {:induction false} UnmappedStays(rows: seq<Row>, i: nat)
    requires i < |rows| && IsTrade(rows[i]) && TradeOf(rows[i]).side.Unmapped?
    ensures !Mapped(Trades(rows))
    decreases |rows|
  {
    var last := |rows| - 1;
    var front := Trades(rows[..last]);
    if i < last {
      UnmappedStays(rows[..last], i);
      var k :| 0 <= k < |front| && front[k].side.Unmapped?;
      assert Trades(rows)[k] == front[k];
    } else {
      assert Trades(rows)[|front|] == TradeOf(rows[last]);
    }
  }

  // ---- the fold is a homomorphism -----------------------------------------

  function Plus(p: Position, q: Position): (r: Position) {
    Position(p.net + q.net, p.cost + q.cost, p.entered + q.entered, p.fillIds + q.fillIds)
  }

  lemma PlusStep(p: Position, q: Position, t: Trade, symbol: string)
    ensures Plus(p, Step(q, t, symbol)) == Step(Plus(p, q), t, symbol)
  {
    assert p.fillIds + (q.fillIds + [t.fillId]) == (p.fillIds + q.fillIds) + [t.fillId];
  }

  lemma {:induction false} TallyConcat(a: seq<Trade>, b: seq<Trade>, symbol: string)
    ensures Tally(a + b, symbol) == Plus(Tally(a, symbol), Tally(b, symbol))
  {
    if b == [] {
      assert a + b == a;
    } else {
      var front, t := b[..|b| - 1], b[|b| - 1];
      hide Step, Plus, Tally;
      TallyConcat(a, front, symbol);
      TallyStep(a + front, t, symbol);
      TallyStep(front, t, symbol);
      PlusStep(Tally(a, symbol), Tally(front, symbol), t, symbol);
      Shuffle.Snoc(a, b);
    }
  }

  /** The amounts, without the order of the fill ids. */
  function Amounts(p: Position): (r: (real, real, real, multiset<Option<string>>)) {
    (p.net, p.cost, p.entered, multiset(p.fillIds))
  }

  lemma {:induction false} OrderDoesNotMatter(a: seq<Trade>, b: seq<Trade>, symbol: string)
    requires multiset(a) == multiset(b)
    ensures Amounts(Tally(a, symbol)) == Amounts(Tally(b, symbol))
    decreases |a|
  {
    if a == [] {
      Shuffle.SameLength(a, b);
    } else {
      var t, front := a[|a| - 1], a[..|a| - 1];
      var k := Shuffle.Matched(a, b);
      var x, y := b[..k], b[k + 1..];
      hide Tally, Step, Plus;
      OrderDoesNotMatter(front, x + y, symbol);
      TallyStep(front, t, symbol);
      TallyStep(x, t, symbol);
      TallyConcat(x + [t], y, symbol);
      TallyConcat(x, y, symbol);
      assert a == front + [t] && b == x + [t] + y;
      StepAnywhere(Tally(front, symbol), Tally(x, symbol), Tally(y, symbol), t, symbol);
    }
  }

  lemma StepAnywhere(p: Position, x: Position, y: Position, t: Trade, symbol: string)
    requires Amounts(p) == Amounts(Plus(x, y))
    ensures Amounts(Step(p, t, symbol)) == Amounts(Plus(Step(x, t, symbol), y))
  {
    Shuffle.Counted(x.fillIds, t.fillId, y.fillIds);
    assert multiset(p.fillIds + [t.fillId]) == multiset(p.fillIds) + multiset{t.fillId};
  }

  predicate Buys(t: Trade) { t.side.BUY_OPEN? || t.side.BUY_CLOSE? }

  /** The quantity bought, or sold, of one symbol. */
  function Volume(ts: seq<Trade>, symbol: string, bought: bool): (q: real) {
    if ts == [] then 0.0
    else (if ts[0].symbol == symbol && Buys(ts[0]) == bought then ts[0].quantity else 0.0) + Volume(ts[1..], symbol, bought)
  }

  lemma {:induction false} NetIsBoughtLessSold(ts: seq<Trade>, symbol: string)
    ensures Tally(ts, symbol).net == Volume(ts, symbol, true) - Volume(ts, symbol, false)
  {
    if ts != [] {
      hide Volume, Tally;
      NetIsBoughtLessSold(ts[1..], symbol);
      TallyConcat([ts[0]], ts[1..], symbol);
      OneTrade(ts[0], symbol);
      VolumeStep(ts, symbol, true);
      VolumeStep(ts, symbol, false);
      assert [ts[0]] + ts[1..] == ts;
    }
  }

  lemma OneTrade(t: Trade, symbol: string)
    ensures Tally([t], symbol) == Step(FLAT, t, symbol)
  {
    TallyStep([], t, symbol);
    assert [] + [t] == [t];
  }

  lemma VolumeStep(ts: seq<Trade>, symbol: string, bought: bool)
    requires ts != []
    ensures Volume(ts, symbol, bought)
         == (if ts[0].symbol == symbol && Buys(ts[0]) == bought then ts[0].quantity else 0.0) + Volume(ts[1..], symbol, bought)
  {}

  // ---- the average entry price --------------------------------------------

  const QUANTUM := 1000000000000.0

  /** Rounding half to even at twelve places. */
  function Quantized(x: real): (q: real) {
    var y := x * QUANTUM;
    var f := y.Floor;
    var d := y - f as real;
    (if d < 0.5 || (d == 0.5 && f % 2 == 0) then f else f + 1) as real / QUANTUM
  }

  /** A nearest whole number of units of the twelfth place, the even one of two. */
  ghost predicate RoundsTo(x: real, n: int) {
    var d := x * 1000000000000.0 - n as real;
    -0.5 <= d <= 0.5 && (d == 0.5 || d == -0.5 ==> n % 2 == 0)
  }

  lemma QuantizedIsNear(x: real)
    ensures x - 0.0000000000005 <= Quantized(x) <= x + 0.0000000000005
    ensures exists n: int :: RoundsTo(x, n) && Quantized(x) == n as real / 1000000000000.0
  {
    var y := x * QUANTUM;
    var f := y.Floor;
    var n := if y - f as real < 0.5 || (y - f as real == 0.5 && f % 2 == 0) then f else f + 1;
    assert y - 0.5 <= n as real <= y + 0.5;
    assert RoundsTo(x, n);
  }

  function AverageEntry(p: Position): (r: Option<real>) {
    if p.entered == 0.0 then None else Some(Quantized(p.cost / p.entered))
  }

  /** A closing fill never re-prices the entry, wherever it stands among the trades. */
  lemma ClosingKeepsAverage(a: seq<Trade>, t: Trade, b: seq<Trade>, symbol: string)
    requires !Opens(t)
    ensures AverageEntry(Tally(a + [t] + b, symbol)) == AverageEntry(Tally(a + b, symbol))
  {
    TallyConcat(a + [t], b, symbol);
    TallyConcat(a, [t], symbol);
    TallyConcat(a, b, symbol);
    OneTrade(t, symbol);
  }

  predicate OpensWithin(ts: seq<Trade>, symbol: string, lo: real, hi: real) {
    forall i :: 0 <= i < |ts| && ts[i].symbol == symbol && Opens(ts[i]) ==> ts[i].quantity > 0.0 && lo <= ts[i].price <= hi
  }

  lemma {:induction false} CostWithin(ts: seq<Trade>, symbol: string, lo: real, hi: real)
    requires OpensWithin(ts, symbol, lo, hi)
    ensures var p := Tally(ts, symbol); p.entered >= 0.0 && lo * p.entered <= p.cost <= hi * p.entered
  {
    if ts != [] {
      var t := ts[|ts| - 1];
      CostWithin(ts[..|ts| - 1], symbol, lo, hi);
      if t.symbol == symbol && Opens(t) { Scaled(t.quantity, lo, t.price, hi); }
    }
  }

  lemma Scaled(q: real, lo: real, x: real, hi: real)
    requires q >= 0.0 && lo <= x <= hi
    ensures lo * q <= q * x <= hi * q
  {}

  lemma Between(c: real, o: real, lo: real, hi: real)
    requires o > 0.0 && lo * o <= c <= hi * o
    ensures lo <= c / o <= hi
  {}

  /** The average entry lies between the least and the greatest opening price, up to
      half a unit of the twelfth place. */
  lemma AverageWithin(ts: seq<Trade>, symbol: string, lo: real, hi: real)
    requires OpensWithin(ts, symbol, lo, hi) && Tally(ts, symbol).entered != 0.0
    ensures lo - 0.0000000000005 <= AverageEntry(Tally(ts, symbol)).value <= hi + 0.0000000000005
  {
    hide Quantized, Tally;
    var p := Tally(ts, symbol);
    CostWithin(ts, symbol, lo, hi);
    Between(p.cost, p.entered, lo, hi);
    QuantizedIsNear(p.cost / p.entered);
  }

  // ---- two reconciliations ------------------------------------------------

  const TOLERANCE := 1.0

  /** The exchange's report: symbol and signed quantity of each row. */
  type Report = seq<(string, real)>

  predicate Near(a: real, b: real) { -TOLERANCE <= a - b <= TOLERANCE }

  function NetOf(book: map<string, Position>, s: string): (q: real) { if s in book then book[s].net else 0.0 }

  predicate Seen(report: Report, s: string) { exists i :: 0 <= i < |report| && report[i].0 == s }

  /** The ledger's own reconciliation finds nothing. */
  predicate LedgerAgrees(book: map<string, Position>, report: Report) {
    && (forall i :: 0 <= i < |report| ==>
          var (s, q) := report[i]; -1.0 <= q - (if s in book then book[s].net else 0.0) <= 1.0)
    && (forall s :: s in book && !Seen(report, s) ==> book[s].net == 0.0)
  }

  datatype Delta = Delta(symbol: string, exchange: real, ledger: real)

  /** A divergence: a reported row far from the ledger, or a position not reported. */
  predicate IsDelta(book: map<string, Position>, report: Report, d: Delta) {
    || ((d.symbol, d.exchange) in report && d.ledger == NetOf(book, d.symbol) && !Near(d.exchange, d.ledger))
    || (d.symbol in book && !Seen(report, d.symbol) && d.exchange == 0.0 && d.ledger == book[d.symbol].net != 0.0)
  }

  /** The reported rows that are far from the ledger. */
  function FarRows(book: map<string, Position>, report: Report): (n: nat) {
    if report == [] then 0
    else
      var (s, q) := report[|report| - 1];
      FarRows(book, report[..|report| - 1]) + if Near(q, NetOf(book, s)) then 0 else 1
  }

  function Unreported(book: map<string, Position>, report: Report): (symbols: set<string>) {
    set s | s in book && !Seen(report, s) && book[s].net != 0.0
  }

  /** How many divergences there are, a row reported twice counting twice. */
  function DeltaCount(book: map<string, Position>, report: Report): (n: nat) {
    FarRows(book, report) + |Unreported(book, report)|
  }

  method FindDeltas(book: map<string, Position>, report: Report) returns (deltas: seq<Delta>)
    ensures forall d :: d in deltas <==> IsDelta(book, report, d)
    ensures deltas == [] <==> LedgerAgrees(book, report)
    ensures |deltas| == DeltaCount(book, report)
  {
    deltas := [];
    var seen := {};
    var i := 0;
    while i < |report|
      invariant 0 <= i <= |report|
      invariant seen == set k | 0 <= k < i :: report[k].0
      invariant |deltas| == FarRows(book, report[..i])
      invariant forall d :: d in deltas <==>
        (d.symbol, d.exchange) in report[..i] && d.ledger == NetOf(book, d.symbol) && !Near(d.exchange, d.ledger)
    {
      var (symbol, quantity) := report[i];
      assert report[..i + 1] == report[..i] + [report[i]] && report[..i + 1][..i] == report[..i];
      seen := seen + {symbol};
      if !Near(quantity, NetOf(book, symbol)) {
        deltas := deltas + [Delta(symbol, quantity, NetOf(book, symbol))];
      }
      i := i + 1;
    }
    assert report[..i] == report && forall s :: s in seen <==> Seen(report, s);
    ghost var first, left: set<string> := deltas, {};
    var todo := book.Keys;
    while todo != {}
      invariant todo <= book.Keys && |deltas| == |first| + |left|
      invariant left == set s | s in book.Keys - todo && s in book && !Seen(report, s) && book[s].net != 0.0
      invariant forall d :: d in deltas <==>
        (d in first || (d.symbol in book.Keys - todo && d.symbol !in seen && d.exchange == 0.0 && d.ledger == book[d.symbol].net != 0.0))
    {
      var s :| s in todo;
      todo := todo - {s};
      if s !in seen && book[s].net != 0.0 {
        deltas := deltas + [Delta(s, 0.0, book[s].net)];
        left := left + {s};
      }
    }
    assert left == Unreported(book, report);
    NoDeltaMeansAgreement(book, report, deltas);
  }

  lemma NoDeltaMeansAgreement(book: map<string, Position>, report: Report, deltas: seq<Delta>)
    requires forall d :: d in deltas <==> IsDelta(book, report, d)
    ensures deltas == [] <==> LedgerAgrees(book, report)
  {
    if deltas == [] {
      forall i | 0 <= i < |report|
        ensures Near(report[i].1, NetOf(book, report[i].0))
      {
        var (s, q) := report[i];
        assert (s, q) in report && Delta(s, q, NetOf(book, s)) !in deltas;
      }
      forall s | s in book && !Seen(report, s)
        ensures book[s].net == 0.0
      {
        assert Delta(s, 0.0, book[s].net) !in deltas;
      }
    } else {
      assert IsDelta(book, report, deltas[0]);
    }
  }

  /** What the exchange reports under an internal name, all rows summed. */
  function Reported(report: Report, internal: string -> string, s: string): (q: real) {
    if report == [] then 0.0
    else
      var (symbol, quantity) := report[|report| - 1];
      Reported(report[..|report| - 1], internal, s) + (if internal(symbol) == s && quantity != 0.0 then quantity else 0.0)
  }

  predicate ReportedNonZero(report: Report, internal: string -> string, s: string) {
    exists i :: 0 <= i < |report| && internal(report[i].0) == s && report[i].1 != 0.0
  }

  /** The reconciliation at boot finds nothing: it sums rows by internal name first, and
      allows the tolerance to symbols the exchange does not report, too. */
  ghost predicate BootAgrees(book: map<string, Position>, report: Report, internal: string -> string) {
    forall s :: s in book || ReportedNonZero(report, internal, s) ==> Near(Reported(report, internal, s), NetOf(book, s))
  }

  /** Each symbol reported once, under its internal name. */
  predicate OnceEach(report: Report, internal: string -> string) {
    && (forall i :: 0 <= i < |report| ==> internal(report[i].0) == report[i].0)
    && (forall i, j :: 0 <= i < j < |report| ==> report[i].0 != report[j].0)
  }

  lemma {:induction false} ReportedOnce(report: Report, internal: string -> string, s: string)
    requires OnceEach(report, internal)
    ensures !Seen(report, s) ==> Reported(report, internal, s) == 0.0
    ensures forall i :: 0 <= i < |report| && report[i].0 == s ==> Reported(report, internal, s) == report[i].1
  {
    if report != [] {
      var front := report[..|report| - 1];
      ReportedOnce(front, internal, s);
      assert Seen(front, s) ==> Seen(report, s);
      assert report[|report| - 1].0 == s ==> !Seen(front, s);
    }
  }

  /** On such reports the ledger's reconciliation agrees exactly when the one at boot
      does and every ledger symbol the exchange leaves out is flat. */
  lemma LedgerAndBoot(book: map<string, Position>, report: Report, internal: string -> string)
    requires OnceEach(report, internal)
    ensures LedgerAgrees(book, report)
       <==> BootAgrees(book, report, internal) && forall s :: s in book && !Seen(report, s) ==> book[s].net == 0.0
  {
    if LedgerAgrees(book, report) {
      forall s | s in book || ReportedNonZero(report, internal, s)
        ensures Near(Reported(report, internal, s), NetOf(book, s))
      {
        ReportedOnce(report, internal, s);
      }
    }
    if BootAgrees(book, report, internal) {
      forall i | 0 <= i < |report|
        ensures Near(report[i].1, NetOf(book, report[i].0))
      {
        var s := report[i].0;
        ReportedOnce(report, internal, s);
        if report[i].1 != 0.0 { assert ReportedNonZero(report, internal, s); }
      }
    }
  }

  /** Two rows for one symbol: each is near the ledger's amount, their sum is not. */
  lemma TwoRowsOneSymbol(internal: string -> string)
    ensures var book := map["BTCUSDT" := Position(2.0, 0.0, 0.0, [])];
            var report: Report := [("BTCUSDT", 2.0), ("BTCUSDT", 2.0)];
            LedgerAgrees(book, report) && (internal("BTCUSDT") == "BTCUSDT" ==> !BootAgrees(book, report, internal))
  {
    var book := map["BTCUSDT" := Position(2.0, 0.0, 0.0, [])];
    var report: Report := [("BTCUSDT", 2.0), ("BTCUSDT", 2.0)];
    assert report[0].0 == "BTCUSDT" && Seen(report, "BTCUSDT");
    assert report[..1] == [("BTCUSDT", 2.0)] && |report[..1][..0]| == 0;
    assert internal("BTCUSDT") == "BTCUSDT" ==> Reported(report[..1], internal, "BTCUSDT") == 2.0;
  }
}
