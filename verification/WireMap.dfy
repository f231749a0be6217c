/** The venue's wire tables: sides, business codes, order statuses, and the filters
    every order passes before it is sent. */
module WireMap {
  import opened Wrappers

  datatype Class = OK | UNKNOWN_CLASS | ABORT | BACKOFF | INTERVAL_UNSUPPORTED | UNMAPPED | REFUSED_CLASS

  datatype Outcome = Acknowledged | Partial | Filled | Rejected | Cancelled | Unknown

  const INTERVAL_UNSUPPORTED_CODE := -1120

  function Classify(code: Option<int>, http: Option<int>): (c: Class) {
    if code == None then UNMAPPED
    else
      var c := code.value;
      var ok := c == 0 || c == 200;
      if http.Some? && http.value != 200 && ok then UNKNOWN_CLASS
      else if ok then OK
      else if c == INTERVAL_UNSUPPORTED_CODE then INTERVAL_UNSUPPORTED
      else if c == -1022 then ABORT
      else if c == -1003 then BACKOFF
      else if c == -1006 || c == -1007 || c == -1146 || c == -1147 then UNKNOWN_CLASS
      else UNMAPPED
  }

  /** Whether the venue's state must be read before anything else is done. */
  predicate NeedsReconcile(c: Class) { c == UNKNOWN_CLASS || c == UNMAPPED }

  function UpperChar(c: char): (u: char) { if 'a' <= c <= 'z' then (c as int - 32) as char else c }

  function Upper(s: string): (u: string) { seq(|s|, i requires 0 <= i < |s| => UpperChar(s[i])) }

  /** Upper case holds no small letter, and changes nothing else. */
  lemma UpperMeans(s: string, i: nat)
    requires i < |s|
    ensures |Upper(s)| == |s| && !('a' <= Upper(s)[i] <= 'z')
    ensures if 'a' <= s[i] <= 'z' then Upper(s)[i] as int - 'A' as int == s[i] as int - 'a' as int else Upper(s)[i] == s[i]
  {}

  function StatusOutcome(literal: string): (o: Outcome) {
    var status := Upper(literal);
    if status == "NEW" then Acknowledged
    else if status == "PARTIALLY_FILLED" then Partial
    else if status == "FILLED" then Filled
    else if status == "CANCELED" || status == "CANCELLED" then Cancelled
    else if status == "REJECTED" then Rejected
    else Unknown
  }

  function OutcomeFor(c: Class, status: Option<string>): (o: Outcome) {
    if c == OK then (if status.Some? then StatusOutcome(status.value) else Acknowledged)
    else if c == INTERVAL_UNSUPPORTED || c == ABORT then Rejected
    else Unknown
  }

  /** A success is code 0 or 200 with HTTP 200 or no HTTP status at all; only a success can
      say that the order lives, and every class to be reconciled is unknown. */
  lemma OnlySuccessIsAlive(code: Option<int>, http: Option<int>, status: Option<string>)
    ensures var c := Classify(code, http);
            var o := OutcomeFor(c, status);
            && (c == OK <==> code in {Some(0), Some(200)} && http in {None, Some(200)})
            && (o in {Acknowledged, Partial, Filled, Cancelled} ==> c == OK)
            && (NeedsReconcile(c) ==> o == Unknown)
  {
    hide StatusOutcome;
  }

  /** The business codes by what they mean. */
  lemma CodesMean(code: int, http: Option<int>, status: Option<string>)
    ensures Classify(Some(code), http) == BACKOFF <==> code == -1003
    ensures Classify(Some(code), http) == ABORT <==> code == -1022
    ensures Classify(Some(code), http) == INTERVAL_UNSUPPORTED <==> code == -1120
    ensures Classify(Some(code), http) == UNKNOWN_CLASS <==>
              code in {-1006, -1007, -1146, -1147} || (code in {0, 200} && http.Some? && http.value != 200)
    ensures Classify(None, http) == UNMAPPED && Classify(Some(code), http) != REFUSED_CLASS
    ensures OutcomeFor(Classify(Some(code), http), status) == Rejected ==>
              code in {-1022, -1120} || (status.Some? && StatusOutcome(status.value) == Rejected)
    ensures code in {-1022, -1120} ==> OutcomeFor(Classify(Some(code), http), status) == Rejected
  {
    hide StatusOutcome;
  }

  /** The order statuses, in any mixture of cases; anything else is unknown. */
  lemma StatusesMean(literal: string)
    ensures StatusOutcome(literal) == Acknowledged <==> Upper(literal) == "NEW"
    ensures StatusOutcome(literal) == Partial <==> Upper(literal) == "PARTIALLY_FILLED"
    ensures StatusOutcome(literal) == Filled <==> Upper(literal) == "FILLED"
    ensures StatusOutcome(literal) == Cancelled <==> Upper(literal) in {"CANCELED", "CANCELLED"}
    ensures StatusOutcome(literal) == Rejected <==> Upper(literal) == "REJECTED"
  {
    var u := Upper(literal);
    assert "NEW"[0] == 'N' && "PARTIALLY_FILLED"[0] == 'P' && "FILLED"[0] == 'F' && "CANCELED"[0] == 'C' && "REJECTED"[0] == 'R';
    assert "CANCELLED"[0] == 'C';
    hide Upper;
  }

  // ---- the order's shape --------------------------------------------------

  datatype Direction = LONG | SHORT | FLAT

  datatype Phase = Entry | Flatten

  datatype WireSide = BUY_OPEN | SELL_OPEN | SELL_CLOSE | BUY_CLOSE

  function SideFor(d: Direction, p: Phase): (s: Option<WireSide>) {
    match (d, p)
    case (LONG, Entry) => Some(BUY_OPEN)
    case (SHORT, Entry) => Some(SELL_OPEN)
    case (LONG, Flatten) => Some(SELL_CLOSE)
    case (SHORT, Flatten) => Some(BUY_CLOSE)
    case _ => None
  }

  function DefaultType(kind: string): (t: Option<string>) {
    if kind == "entry" || kind == "target" || kind == "aggressive_flatten" then Some("LIMIT")
    else if kind == "stop" then Some("STOP")
    else None
  }

  /** The exchange filters and the leverage caps. */
  datatype Filters = Filters(
    tick: map<string, real>, step: map<string, real>, minNotional: map<string, real>,
    exchangeMax: map<string, real>, capByTimeframe: map<string, real>)

  predicate Complete(f: Filters) {
    && f.tick.Keys == f.step.Keys == f.minNotional.Keys == f.exchangeMax.Keys
    && (forall s :: s in f.tick ==> f.tick[s] > 0.0 && f.step[s] > 0.0)
  }

  datatype Order = Order(
    intent: string, symbol: string, timeframe: string, direction: Direction, phase: Phase, kind: string,
    orderType: Option<string>, quantity: real, price: real, leverage: Option<real>, ownerCap: Option<real>)

  /** What goes on the wire. */
  datatype Wire = Wire(
    intent: string, symbol: string, side: WireSide, orderType: string, quantity: real, price: real, leverage: Option<real>)

  datatype Preflight = Raise(reason: string) | Refuse(reason: string) | Go(wire: Wire)

  function Times(a: real, k: real): (y: real) { a * k }

  /** A multiple of the step, rounded toward zero. */
  function Lattice(x: real, step: real): (y: real)
    requires step > 0.0
  {
    if x >= 0.0 then Times((x / step).Floor as real, step) else -Times((-x / step).Floor as real, step)
  }

  predicate IsSteps(n: int, y: real, step: real) { n >= 0 && y == Times(n as real, step) }

  ghost predicate OnLattice(y: real, step: real) { exists n: int :: IsSteps(n, y, step) }

  lemma LatticeLaw(x: real, step: real)
    requires step > 0.0 && x >= 0.0
    ensures 0.0 <= Lattice(x, step) <= x < Lattice(x, step) + step
    ensures OnLattice(Lattice(x, step), step)
  {
    Quotient(x, step);
    hide Times;
    var y := x / step;
    var n := y.Floor;
    TimesLaw(0.0, n as real, step);
    TimesLaw(n as real, y, step);
    TimesLaw(y, n as real + 1.0, step);
    OneStepMore(n as real, step);
    assert IsSteps(n, Lattice(x, step), step);
  }

  lemma Quotient(x: real, step: real)
    requires step > 0.0 && x >= 0.0
    ensures Times(x / step, step) == x && x / step >= 0.0 && Times(0.0, step) == 0.0
  {}

  lemma OneStepMore(a: real, k: real)
    ensures Times(a + 1.0, k) == Times(a, k) + k
  {}

  lemma TimesLaw(a: real, b: real, k: real)
    requires k > 0.0
    ensures a <= b ==> Times(a, k) <= Times(b, k)
    ensures a < b ==> Times(a, k) < Times(b, k)
  {}

  /** The least of all caps at once. */
  function LeverageCap(f: Filters, o: Order): (cap: real)
    requires o.symbol in f.exchangeMax && o.timeframe in f.capByTimeframe
  {
    var base := if f.exchangeMax[o.symbol] < f.capByTimeframe[o.timeframe] then f.exchangeMax[o.symbol] else f.capByTimeframe[o.timeframe];
    if o.ownerCap.Some? && o.ownerCap.value < base then o.ownerCap.value else base
  }

  function Check(f: Filters, o: Order): (r: Preflight)
    requires Complete(f)
  {
    if DefaultType(o.kind) == None then Raise("ORDER_KIND_QX")
    else
      var t := if o.orderType.Some? && o.orderType.value != "" then o.orderType.value else DefaultType(o.kind).value;
      if Upper(t) == "MARKET" then Raise("ORDER_TYPE_FORBIDDEN")
      else if o.symbol !in f.tick then Raise("E-VAL-021")
      else if o.quantity < 0.0 then Raise("QUANTITY_NEGATIVE")
      else
        var q := Lattice(o.quantity, f.step[o.symbol]);
        var p := Lattice(o.price, f.tick[o.symbol]);
        if p * q < f.minNotional[o.symbol] then Refuse("MIN_NOTIONAL_QX")
        else if q <= 0.0 then Refuse("QUANTITY_ZERO")
        else
          match SideFor(o.direction, o.phase)
          case None => Raise("SIDE_MAP_QX")
          case Some(side) =>
            if o.leverage == None then Go(Wire(o.intent, o.symbol, side, t, q, p, None))
            else if o.timeframe !in f.capByTimeframe then Raise("E-VAL-022")
            else if o.ownerCap.Some? && o.ownerCap.value <= 0.0 then Raise("OWNER_CAP_NON_POSITIVE")
            else if o.leverage.value > LeverageCap(f, o) then Refuse("LEVERAGE_ABOVE_MIN_CAP")
            else Go(Wire(o.intent, o.symbol, side, t, q, p, Some(LeverageCap(f, o))))
  }

  /** What a wire order for this request must be: on the lattice and never more than was
      asked, at or above the minimum notional, never a market order, and never
      leveraged beyond any cap. */
  ghost predicate Lawful(f: Filters, o: Order, w: Wire)
    requires Complete(f)
  {
    && w.intent == o.intent && w.symbol == o.symbol && o.symbol in f.tick && Upper(w.orderType) != "MARKET"
    && (if o.orderType in {None, Some("")}
        then (o.kind in {"entry", "target", "aggressive_flatten"} && w.orderType == "LIMIT") || (o.kind == "stop" && w.orderType == "STOP")
        else Some(w.orderType) == o.orderType && o.kind in {"entry", "target", "aggressive_flatten", "stop"})
    && 0.0 < w.quantity <= o.quantity < w.quantity + f.step[o.symbol] && OnLattice(w.quantity, f.step[o.symbol])
    && (o.price >= 0.0 ==> w.price <= o.price < w.price + f.tick[o.symbol] && OnLattice(w.price, f.tick[o.symbol]))
    && w.price * w.quantity >= f.minNotional[o.symbol]
    && (   (o.direction == LONG && o.phase == Entry && w.side == BUY_OPEN) || (o.direction == LONG && o.phase == Flatten && w.side == SELL_CLOSE)
        || (o.direction == SHORT && o.phase == Entry && w.side == SELL_OPEN) || (o.direction == SHORT && o.phase == Flatten && w.side == BUY_CLOSE))
    && (w.leverage == None <==> o.leverage == None)
    && (w.leverage.Some? ==>
          && o.timeframe in f.capByTimeframe
          && o.leverage.value <= w.leverage.value
          && w.leverage in {Some(f.exchangeMax[o.symbol]), Some(f.capByTimeframe[o.timeframe]), o.ownerCap}
          && w.leverage.value <= f.exchangeMax[o.symbol] && w.leverage.value <= f.capByTimeframe[o.timeframe]
          && (o.ownerCap.Some? ==> w.leverage.value <= o.ownerCap.value))
  }

  lemma CheckedIsLawful(f: Filters, o: Order)
    requires Complete(f) && Check(f, o).Go?
    ensures Lawful(f, o, Check(f, o).wire)
  {
    hide Lattice, Upper;
    LatticeLaw(o.quantity, f.step[o.symbol]);
    if o.price >= 0.0 { LatticeLaw(o.price, f.tick[o.symbol]); }
  }

  /** A requested amount and its greatest multiple of a step. */
  predicate Quantized(x: real, step: real, y: real, n: nat) { y == Times(n as real, step) && y <= x < y + step }

  lemma QuantizedIsLattice(x: real, step: real, y: real, n: nat)
    requires step > 0.0 && x >= 0.0 && Quantized(x, step, y, n)
    ensures y == Lattice(x, step)
  {
    LatticeLaw(x, step);
    var m: int :| IsSteps(m, Lattice(x, step), step);
    StepsApart(m, n, step);
    StepsApart(n, m, step);
  }

  lemma StepsApart(m: int, n: int, step: real)
    requires step > 0.0
    ensures m < n ==> Times(m as real, step) + step <= Times(n as real, step)
  {
    if m < n {
      OneStepMore(m as real, step);
      TimesLaw((m + 1) as real, n as real, step);
      assert (m + 1) as real == m as real + 1.0;
    }
  }

  /** Exactly which requests at a price pass: of a known kind and symbol, not for a market
      order, worth the minimum notional and more than nothing once quantized, in a
      direction, and leveraged within the caps. */
  lemma WhenItGoes(f: Filters, o: Order, quantity: real, price: real, n: nat, m: nat)
    requires Complete(f) && o.price >= 0.0 && o.symbol in f.tick
    requires o.quantity >= 0.0 ==> Quantized(o.quantity, f.step[o.symbol], quantity, n)
    requires Quantized(o.price, f.tick[o.symbol], price, m)
    ensures Check(f, o).Go? <==>
              && o.kind in {"entry", "target", "aggressive_flatten", "stop"}
              && (o.orderType.Some? ==> Upper(o.orderType.value) != "MARKET")
              && o.quantity >= 0.0 && price * quantity >= f.minNotional[o.symbol] && quantity > 0.0
              && o.direction != FLAT
              && (o.leverage.Some? ==>
                    && o.timeframe in f.capByTimeframe && o.leverage.value <= f.exchangeMax[o.symbol]
                    && o.leverage.value <= f.capByTimeframe[o.timeframe]
                    && (o.ownerCap.Some? ==> o.ownerCap.value > 0.0 && o.leverage.value <= o.ownerCap.value))
  {
    assert |Upper("LIMIT")| == 5 && |Upper("STOP")| == 4 && |Upper("")| == 0;
    if o.quantity >= 0.0 { QuantizedIsLattice(o.quantity, f.step[o.symbol], quantity, n); }
    QuantizedIsLattice(o.price, f.tick[o.symbol], price, m);
    hide Lattice, Upper, Quantized;
  }

  /** Why a request that could be priced does not pass, the first reason first. */
  lemma WhyItStops(f: Filters, o: Order, quantity: real, price: real, n: nat, m: nat)
    requires Complete(f) && o.price >= 0.0 && o.symbol in f.tick && o.quantity >= 0.0
    requires o.kind in {"entry", "target", "aggressive_flatten", "stop"} && (o.orderType.Some? ==> Upper(o.orderType.value) != "MARKET")
    requires Quantized(o.quantity, f.step[o.symbol], quantity, n) && Quantized(o.price, f.tick[o.symbol], price, m)
    ensures var small, r := price * quantity < f.minNotional[o.symbol], Check(f, o);
            && (r == Refuse("MIN_NOTIONAL_QX") <==> small)
            && (r == Refuse("QUANTITY_ZERO") <==> !small && quantity <= 0.0)
            && (r == Raise("SIDE_MAP_QX") <==> !small && quantity > 0.0 && o.direction == FLAT)
            && (r == Raise("E-VAL-022") <==>
                  !small && quantity > 0.0 && o.direction != FLAT && o.leverage.Some? && o.timeframe !in f.capByTimeframe)
            && (r == Raise("OWNER_CAP_NON_POSITIVE") <==>
                  && !small && quantity > 0.0 && o.direction != FLAT && o.leverage.Some? && o.timeframe in f.capByTimeframe
                  && o.ownerCap.Some? && o.ownerCap.value <= 0.0)
            && (r == Refuse("LEVERAGE_ABOVE_MIN_CAP") <==>
                  && !small && quantity > 0.0 && o.direction != FLAT && o.leverage.Some? && o.timeframe in f.capByTimeframe
                  && (o.ownerCap.Some? ==> o.ownerCap.value > 0.0)
                  && (o.leverage.value > f.exchangeMax[o.symbol] || o.leverage.value > f.capByTimeframe[o.timeframe]
                      || (o.ownerCap.Some? && o.leverage.value > o.ownerCap.value)))
  {
    assert |Upper("LIMIT")| == 5 && |Upper("STOP")| == 4 && |Upper("")| == 0;
    QuantizedIsLattice(o.quantity, f.step[o.symbol], quantity, n);
    QuantizedIsLattice(o.price, f.tick[o.symbol], price, m);
    hide Lattice, Upper, Quantized;
  }

  /** What no price can help: an unknown kind, a market order, a negative quantity. */
  lemma WhatIsRaised(f: Filters, o: Order)
    requires Complete(f)
    ensures var known := o.kind in {"entry", "target", "aggressive_flatten", "stop"};
            var market := o.orderType.Some? && Upper(o.orderType.value) == "MARKET";
            && (Check(f, o) == Raise("ORDER_KIND_QX") <==> !known)
            && (Check(f, o) == Raise("ORDER_TYPE_FORBIDDEN") <==> known && market)
            && (Check(f, o) == Raise("E-VAL-021") <==> known && !market && o.symbol !in f.tick)
            && (Check(f, o) == Raise("QUANTITY_NEGATIVE") <==> known && !market && o.symbol in f.tick && o.quantity < 0.0)
  {
    assert |Upper("LIMIT")| == 5 && |Upper("STOP")| == 4 && |Upper("")| == 0;
    hide Lattice, Upper;
  }

  /** A symbol the filters do not know never passes. */
  lemma UnknownSymbolRaises(f: Filters, o: Order)
    requires Complete(f) && o.symbol !in f.tick
    ensures Check(f, o).Raise?
  {
    hide Upper;
  }
}
