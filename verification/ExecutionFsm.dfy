/** One order's machine: every move is written to the ledger before it is made, and the
    adapter's answer becomes exactly one move. */
module ExecutionFsm {
  import opened Wrappers
  import opened OrderStates
  import opened LedgerChain
  import opened LedgerWriter
  import opened OrderRuns
  import WireMap
  import opened Adapter

  datatype FsmError = IllegalTransition | Ledger(error: LedgerError) | AdapterRaised

  // ---- answers of the adapter ---------------------------------------------

  function TriggerOf(r: Reply): (t: Trigger) {
    if r.verdict == WireMap.REFUSED_CLASS then EXCHANGE_REJECT
    else
      match r.outcome
      case Acknowledged => EXCHANGE_ACK
      case Partial => PARTIAL_FILL
      case Filled => FULL_FILL
      case Rejected => EXCHANGE_REJECT
      case Cancelled => CANCEL_CONFIRMED
      case Unknown => UNKNOWN_OUTCOME
  }

  /** Every answer can be applied in SUBMITTING, and in no other state can every one be. */
  lemma EveryAnswerApplies(s: State)
    ensures (forall r: Reply :: Target(s, TriggerOf(r)).Some?) <==> s == SUBMITTING
  {
    var any := Reply(WireMap.OK, WireMap.Acknowledged, None, None, "", false, false, false, None);
    if s != SUBMITTING {
      assert TriggerOf(any) == EXCHANGE_ACK && Target(s, EXCHANGE_ACK) == None;
    }
  }

  /** The state an answer puts its order in. */
  function AnswerState(r: Reply): (s: State) {
    if r.verdict == WireMap.REFUSED_CLASS then REJECTED
    else
      match r.outcome
      case Acknowledged => ACKNOWLEDGED
      case Partial => PARTIAL
      case Filled => FILLED
      case Rejected => REJECTED
      case Cancelled => CANCELLED
      case Unknown => RECOVERY_REQUIRED
  }

  /** A submitting machine goes where the answer says: a filled order's machine is FILLED. */
  lemma AnswerNamesState(r: Reply)
    ensures Target(SUBMITTING, TriggerOf(r)) == Some(AnswerState(r))
  {}

  /** An outcome that must be reconciled before anything else is done leads to recovery. */
  lemma UnknownLeadsToRecovery(r: Reply)
    ensures Target(SUBMITTING, TriggerOf(r)) == Some(RECOVERY_REQUIRED) <==> r.verdict != WireMap.REFUSED_CLASS && r.outcome.Unknown?
  {}

  // ---- plans --------------------------------------------------------------

  datatype Plan = Plan(proposalId: string, decision: string, sized: real)

  /** Why a plan never reaches the exchange. */
  function Refusal(p: Plan, o: WireMap.Order, disabled: set<(string, string)>): (reason: Option<string>) {
    if p.decision == "REJECT" then Some("RISK_REJECT")
    else if p.decision != "ALLOW" && p.decision != "REDUCE" then Some("DECISION_QX")
    else if p.sized <= 0.0 then Some("QUANTITY_ZERO")
    else if o.direction.FLAT? then Some("NO_TRADE_DIRECTION")
    else if (o.symbol, o.timeframe) in disabled then Some("TF_DISABLED_FOR_SYMBOL")
    else None
  }

  /** A plan that may go out. */
  predicate Sendable(p: Plan, o: WireMap.Order, disabled: set<(string, string)>) {
    p.decision in {"ALLOW", "REDUCE"} && p.sized > 0.0 && o.direction != WireMap.FLAT && (o.symbol, o.timeframe) !in disabled
  }

  lemma RefusalMeans(p: Plan, o: WireMap.Order, disabled: set<(string, string)>)
    ensures Refusal(p, o, disabled) == None <==> Sendable(p, o, disabled)
  {}

  /** The plan's record stands under the plan's own proposal id, not under the intent. */
  function PlanRecord(plan: Plan, id: string): (r: Record) {
    Record(id, Event.Other("TRADE_PLAN"), Some(plan.proposalId), None, Some("TRADE_PLAN_MATERIALIZED"))
  }

  // ---- the machine --------------------------------------------------------

  class Fsm {
    const intent: string
    const ledger: Writer
    const adapter: ToobitAdapter
    var state: State
    var history: seq<Event>

    constructor (intent: string, ledger: Writer, adapter: ToobitAdapter)
      ensures this.intent == intent && this.ledger == ledger && this.adapter == adapter && state == READY && history == []
    {
      this.intent, this.ledger, this.adapter := intent, ledger, adapter;
      state, history := READY, [];
    }

    /** The ledger holds this intent's path, and the path ends here. */
    ghost predicate LogsPath()
      reads this, ledger
    {
      Walk(Path(Records(ledger.rows), intent), state)
    }

    method Advance(trigger: Trigger, id: string, fault: Fault) returns (r: Result<State, FsmError>)
      requires ledger.queue == []
      modifies this`state, this`history, ledger`queue, ledger`rows, ledger`head
      ensures ledger.queue == [] && old(ledger.rows) <= ledger.rows
      ensures r.Ok? <==> Target(old(state), trigger).Some? && !ledger.closed && !ledger.blocked && fault == Landed
      ensures r.Ok? ==> Some(r.value) == Some(state) == Target(old(state), trigger)
      ensures r.Ok? ==> history == old(history) + [Transition(old(state), trigger, state)]
      ensures r.Ok? ==>
                && |ledger.rows| == |old(ledger.rows)| + 1
                && ledger.rows[|old(ledger.rows)|].raw.record == MoveRecord(intent, id, Machine(old(state), Idle), trigger, state)
      ensures r.Err? ==> state == old(state) && history == old(history)
      ensures Target(old(state), trigger) == None ==> r == Err(IllegalTransition) && ledger.rows == old(ledger.rows)
      ensures LogsPath() <==>
                && old(LogsPath())
                && (fault == Torn && Target(old(state), trigger).Some? && !ledger.closed && !ledger.blocked ==>
                      old(state) == RECOVERY_REQUIRED && trigger == RECONCILE_DIVERGENCE)
    {
      OnlyLoop(state, trigger);
      hide Target, Name, Walk, Path;
      ghost var before := ledger.rows;
      var to := Target(state, trigger);
      if to == None { return Err(IllegalTransition); }
      var record := MoveRecord(intent, id, Machine(state, Idle), trigger, to.value);
      var written := ledger.Append(Pending(record, [], None, None), fault);
      PathStep(Records(before), record, intent);
      if ledger.rows != before {
        RecordsGrow(before, ledger.rows[|before|]);
        WalkStep(Path(Records(before), intent), state, trigger, to.value, if fault.Torn? then state else to.value);
      }
      if written.Err? { return Err(Ledger(written.error)); }
      history := history + [Transition(state, trigger, to.value)];
      state := to.value;
      return Ok(state);
    }

    method ApplyAdapterResult(reply: Reply, id: string, fault: Fault) returns (r: Result<State, FsmError>)
      requires ledger.queue == []
      modifies this`state, this`history, ledger`queue, ledger`rows, ledger`head
      ensures ledger.queue == [] && old(ledger.rows) <= ledger.rows
      ensures old(state) == SUBMITTING ==> (r.Ok? <==> !ledger.closed && !ledger.blocked && fault == Landed)
      ensures old(state) == SUBMITTING && r.Ok? ==> state == AnswerState(reply)
      ensures r.Ok? ==> Target(old(state), TriggerOf(reply)) == Some(state)
      ensures r.Err? ==> state == old(state)
      ensures old(state) != READY ==> state != READY
      ensures old(LogsPath()) && fault != Torn ==> LogsPath()
    {
      AnswerNamesState(reply);
      EndsOfTheLine(state, TriggerOf(reply));
      hide Target;
      r := Advance(TriggerOf(reply), id, fault);
    }

    /** The plan's own record. It is no move, so the path does not change, torn or not. */
    method AppendPlan(plan: Plan, id: string, fault: Fault) returns (r: Result<(), FsmError>)
      requires ledger.queue == []
      modifies ledger`queue, ledger`rows, ledger`head
      ensures ledger.queue == [] && old(ledger.rows) <= ledger.rows
      ensures LogsPath() <==> old(LogsPath())
      ensures r.Ok? <==> !ledger.blocked && !ledger.closed && fault == Landed
      ensures r.Ok? ==>
                && |ledger.rows| == |old(ledger.rows)| + 1
                && ledger.rows[|old(ledger.rows)|].raw.record == PlanRecord(plan, id)
                   == Record(id, Event.Other("TRADE_PLAN"), Some(plan.proposalId), None, Some("TRADE_PLAN_MATERIALIZED"))
    {
      hide Walk, Path;
      ghost var before := ledger.rows;
      var written := ledger.Append(Pending(PlanRecord(plan, id), [], None, None), fault);
      if ledger.rows != before { RecordsGrow(before, ledger.rows[|before|]); }
      PathStep(Records(before), PlanRecord(plan, id), intent);
      assert Path(Records(before), intent) + [] == Path(Records(before), intent);
      return if written.Err? then Err(Ledger(written.error)) else Ok(());
    }

    /** The plan's record and then the move to SUBMITTING, before anything is sent. */
    method Announce(plan: Plan, ids: nat -> string, faults: nat -> Fault) returns (r: Result<State, FsmError>)
      requires ledger.queue == []
      modifies this`state, this`history, ledger`queue, ledger`rows, ledger`head
      ensures ledger.queue == []
      ensures r.Ok? <==> old(state) == READY && !ledger.closed && !ledger.blocked && faults(0) == Landed && faults(1) == Landed
      ensures state == if r.Ok? then SUBMITTING else old(state)
      ensures r.Ok? ==>
                && old(ledger.rows) <= ledger.rows && |ledger.rows| == |old(ledger.rows)| + 2
                && ledger.rows[|old(ledger.rows)|].raw.record == PlanRecord(plan, ids(0))
                && ledger.rows[|old(ledger.rows)| + 1].raw.record
                     == MoveRecord(intent, ids(1), Machine(READY, Idle), SUBMIT_ORDER, SUBMITTING)
      ensures (old(LogsPath()) && faults(0) != Torn && faults(1) != Torn) ==> LogsPath()
    {
      SubmitEdges(state);
      hide Target, LogsPath, MoveRecord, PlanRecord;
      var planned := AppendPlan(plan, ids(0), faults(0));
      if planned.Err? { return Err(planned.error); }
      r := Advance(SUBMIT_ORDER, ids(1), faults(1));
    }

    /** An announced plan goes to the adapter, and its answer becomes a move. */
    method Send(plan: Plan, call: Call, ids: nat -> string, faults: nat -> Fault) returns (r: Result<State, FsmError>)
      requires ledger.queue == [] && WireMap.Complete(call.filters) && call.order.intent == intent
      modifies this`state, this`history, ledger`queue, ledger`rows, ledger`head, adapter
      ensures ledger.queue == []
      ensures var moves := old(state) == READY && !ledger.closed && !ledger.blocked && faults(0) == Landed && faults(1) == Landed;
              var (kept, answer) := Submitted(old(adapter.Kept()), call);
              && (!moves ==> r.Err? && state == old(state) && adapter.Kept() == old(adapter.Kept()))
              && (moves ==> adapter.Kept() == kept)
              && (moves && !answer.Returned? ==> r == Err(AdapterRaised) && state == SUBMITTING)
              && (moves && answer.Returned? ==>
                    (r.Ok? <==> faults(2) == Landed) && state == if r.Ok? then AnswerState(answer.reply) else SUBMITTING)
      ensures adapter.wire != old(adapter.wire) ==>
                && old(ledger.rows) <= ledger.rows && |ledger.rows| >= |old(ledger.rows)| + 2
                && ledger.rows[|old(ledger.rows)|].raw.record == PlanRecord(plan, ids(0))
                && ledger.rows[|old(ledger.rows)| + 1].raw.record
                     == MoveRecord(intent, ids(1), Machine(READY, Idle), SUBMIT_ORDER, SUBMITTING)
      ensures (old(LogsPath()) && faults(0) != Torn && faults(1) != Torn && faults(2) != Torn) ==> LogsPath()
    {
      hide Target, LogsPath, Submitted, MoveRecord, PlanRecord, TriggerOf, AnswerState, WireMap.Complete, Enters, PassFrom, Audited;
      var moved := Announce(plan, ids, faults);
      if moved.Err? { return moved; }
      var answer := adapter.SubmitOrder(call);
      if !answer.Returned? { return Err(AdapterRaised); }
      r := ApplyAdapterResult(answer.reply, ids(2), faults(2));
    }

    /** READY to the exchange. `faults` says how each of the ledger's writes goes. */
    method Submit(plan: Plan, call: Call, ids: nat -> string, faults: nat -> Fault) returns (r: Result<State, FsmError>)
      requires ledger.queue == [] && WireMap.Complete(call.filters) && call.order.intent == intent
      modifies this`state, this`history, ledger`queue, ledger`rows, ledger`head, adapter
      ensures ledger.queue == []
      ensures !Sendable(plan, call.order, old(adapter.disabled)) ==>
                && adapter.Kept() == old(adapter.Kept())
                && (r.Ok? <==> old(state) == READY && !ledger.closed && !ledger.blocked && faults(1) == Landed)
                && state == if r.Ok? then REJECTED else old(state)
      ensures Sendable(plan, call.order, old(adapter.disabled)) ==>
                var moves := old(state) == READY && !ledger.closed && !ledger.blocked && faults(0) == Landed && faults(1) == Landed;
                var (kept, answer) := Submitted(old(adapter.Kept()), call);
                && (!moves ==> r.Err? && state == old(state) && adapter.Kept() == old(adapter.Kept()))
                && (moves ==> adapter.Kept() == kept)
                && (moves && !answer.Returned? ==> r == Err(AdapterRaised) && state == SUBMITTING)
                && (moves && answer.Returned? ==>
                      (r.Ok? <==> faults(2) == Landed) && state == if r.Ok? then AnswerState(answer.reply) else SUBMITTING)
      ensures adapter.wire != old(adapter.wire) ==>
                && old(ledger.rows) <= ledger.rows && |ledger.rows| >= |old(ledger.rows)| + 2
                && ledger.rows[|old(ledger.rows)|].raw.record == PlanRecord(plan, ids(0))
                && ledger.rows[|old(ledger.rows)| + 1].raw.record
                     == MoveRecord(intent, ids(1), Machine(READY, Idle), SUBMIT_ORDER, SUBMITTING)
      ensures (old(LogsPath()) && forall k :: faults(k) != Torn) ==> LogsPath()
    {
      RefusalMeans(plan, call.order, adapter.disabled);
      SubmitEdges(state);
      hide Target, LogsPath, Submitted, Refusal, Sendable, MoveRecord, PlanRecord, TriggerOf, AnswerState, WireMap.Complete, Enters, PassFrom, Audited;
      var refusal := Refusal(plan, call.order, adapter.disabled);
      if refusal.Some? {
        r := Advance(VALIDATION_FAILED, ids(1), faults(1));
        return;
      }
      r := Send(plan, call, ids, faults);
    }
  }

  /** A torn append leaves the record of a move that was not made: the logged path then
      ends elsewhere, except when the move leads from recovery to recovery. */
  lemma TornMoveBreaksPath(p: seq<Event>, s: State, t: Trigger, to: State)
    requires Walk(p, s) && Target(s, t) == Some(to)
    ensures Walk(p + [Transition(s, t, to)], s) <==> s == RECOVERY_REQUIRED && t == RECONCILE_DIVERGENCE
  {
    WalkStep(p, s, t, to, s);
    OnlyLoop(s, t);
  }

  lemma SubmitEdges(s: State)
    ensures Target(s, SUBMIT_ORDER) == if s == READY then Some(SUBMITTING) else None
    ensures Target(s, VALIDATION_FAILED) == if s == READY then Some(REJECTED) else None
  {}

  lemma RecordsGrow(rows: seq<Row>, row: Row)
    ensures Records(rows + [row]) == Records(rows) + [row.raw.record]
  {}
}
