/** What the orders that go on the wire do to the ledger's positions once they fill. */
module OrderEffect {
  import opened Wrappers
  import opened WireMap
  import LedgerChain
  import opened Positions
  import opened Adapter

  /** The side under which a fill of the order is recorded. */
  function FillSide(side: WireSide): (s: LedgerChain.Side) {
    match side
    case BUY_OPEN => LedgerChain.BUY_OPEN
    case SELL_OPEN => LedgerChain.SELL_OPEN
    case SELL_CLOSE => LedgerChain.SELL_CLOSE
    case BUY_CLOSE => LedgerChain.BUY_CLOSE
  }

  /** A fill of some or all of an order. */
  function FillOf(w: Wire, quantity: real): (t: Trade) { Trade(None, w.symbol, FillSide(w.side), w.price, quantity) }

  /** Which way an order is to move the net position: a long entry up, a short entry down,
      and a flatten the other way. */
  function Sign(o: Order): (sign: real) {
    if o.direction == LONG then (if o.phase.Entry? then 1.0 else -1.0)
    else if o.direction == SHORT then (if o.phase.Entry? then -1.0 else 1.0)
    else 0.0
  }

  /** A fill of a lawful order opens exactly for an entry, and moves the net of its own
      symbol by the filled quantity in the order's direction, and no other. */
  lemma FillMovesPosition(f: Filters, o: Order, w: Wire, ts: seq<Trade>, quantity: real, symbol: string)
    requires Complete(f) && Lawful(f, o, w)
    ensures o.direction != FLAT
    ensures Opens(FillOf(w, quantity)) <==> o.phase.Entry?
    ensures Tally(ts + [FillOf(w, quantity)], symbol).net
         == Tally(ts, symbol).net + if symbol == o.symbol then Sign(o) * quantity else 0.0
  {
    hide Tally, OnLattice;
    TallyStep(ts, FillOf(w, quantity), symbol);
  }

  /** An entry and then a flatten of the same direction, filled in the same quantity, leave
      the position where it was. */
  lemma FlattenUndoesEntry(f: Filters, entry: Order, flatten: Order, in_: Wire, out: Wire, ts: seq<Trade>, quantity: real, symbol: string)
    requires Complete(f) && Lawful(f, entry, in_) && Lawful(f, flatten, out)
    requires entry.phase.Entry? && flatten.phase.Flatten? && entry.direction == flatten.direction && entry.symbol == flatten.symbol
    ensures Tally(ts + [FillOf(in_, quantity)] + [FillOf(out, quantity)], symbol).net == Tally(ts, symbol).net
  {
    hide Tally, Lawful;
    FillMovesPosition(f, entry, in_, ts, quantity, symbol);
    FillMovesPosition(f, flatten, out, ts + [FillOf(in_, quantity)], quantity, symbol);
  }

  /** So for whatever a submission puts on the wire: each order, filled in full, moves the
      position of the requested symbol in the requested direction by more than nothing and
      by no more than was asked. */
  lemma SubmissionMovesPosition(s: AdapterState, c: Call, i: nat, ts: seq<Trade>)
    requires Complete(c.filters) && |s.wire| <= i < |Submitted(s, c).0.wire|
    ensures var w, o := Submitted(s, c).0.wire[i], c.order;
            var moved := Tally(ts + [FillOf(w, w.quantity)], o.symbol).net - Tally(ts, o.symbol).net;
            && w.intent == o.intent && (Opens(FillOf(w, w.quantity)) <==> o.phase.Entry?)
            && o.direction != FLAT && moved == Sign(o) * w.quantity
            && 0.0 < w.quantity <= o.quantity
  {
    SubmitLaw(s, c);
    hide Submitted, Tally;
    var w := Submitted(s, c).0.wire[i];
    FillMovesPosition(c.filters, c.order, w, ts, w.quantity, c.order.symbol);
  }

  /** The four sides by name: two of them buy, two of them open. */
  lemma SidesMean(t: Trade)
    ensures Buys(t) <==> t.side in {LedgerChain.BUY_OPEN, LedgerChain.BUY_CLOSE}
    ensures Opens(t) <==> t.side in {LedgerChain.BUY_OPEN, LedgerChain.SELL_OPEN}
  {}
}
