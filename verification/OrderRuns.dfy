/** Many order machines, one ledger queue and one block flag, with every await a place
    where other steps may come between. */
module OrderRuns {
  import opened Wrappers
  import opened OrderStates
  import opened LedgerChain
  import opened LedgerWriter

  /** Where a machine's last request to the ledger stands. */
  datatype Flight = Idle | Queued(trigger: Trigger, to: State) | Written(to: State) | Failed

  datatype Machine = Machine(state: State, flight: Flight)

  datatype System = System(log: seq<Record>, queue: seq<Record>, blocked: bool, machines: map<string, Machine>)

  datatype Step =
    | Create(intent: string)                                  // a new machine
    | Advance(intent: string, trigger: Trigger, id: string)   // up to the await of its append
    | Other(record: Record)                                   // any other append, up to its await
    | ApplyNext(fault: Fault)                                 // the writer task takes one entry
    | Resume(intent: string)                                  // a machine wakes from its await
    | Reconciled(blocked: bool)                               // a reconciliation sets or lifts the block

  function MoveRecord(intent: string, id: string, m: Machine, trigger: Trigger, to: State): (r: Record) {
    Record(id, Transition(m.state, trigger, to), Some(intent), None, Some(Name(to)))
  }

  function Next(s: System, step: Step): (r: System) {
    match step
    case Create(intent) =>
      if intent in s.machines then s else s.(machines := s.machines[intent := Machine(READY, Idle)])
    case Advance(intent, trigger, id) =>
      if intent !in s.machines || s.machines[intent].flight != Idle then s
      else
        var m := s.machines[intent];
        var to := Target(m.state, trigger);
        if to == None || Admission(false, s.blocked, Transition(m.state, trigger, to.value)).Err? then s
        else s.(
          queue := s.queue + [MoveRecord(intent, id, m, trigger, to.value)],
          machines := s.machines[intent := m.(flight := Queued(trigger, to.value))])
    case Other(record) =>
      if record.event.Transition? || Admission(false, s.blocked, record.event).Err? then s
      else s.(queue := s.queue + [record])
    case ApplyNext(fault) =>
      if s.queue == [] then s
      else
        var r := s.queue[0];
        var s' := s.(queue := s.queue[1..], log := if fault.Lost? then s.log else s.log + [r]);
        if r.event.Transition? && r.intentId.Some? && r.intentId.value in s.machines then
          var m := s.machines[r.intentId.value];
          s'.(machines := s.machines[r.intentId.value := m.(flight := if fault.Landed? then Written(r.event.to) else Failed)])
        else s'
    case Resume(intent) =>
      if intent !in s.machines then s
      else
        var m := s.machines[intent];
        if m.flight.Written? then s.(machines := s.machines[intent := Machine(m.flight.to, Idle)])
        else if m.flight.Failed? then s.(machines := s.machines[intent := Machine(m.state, Idle)])
        else s
    case Reconciled(b) => s.(blocked := b)
  }

  function After(s: System, steps: seq<Step>): (r: System)
    decreases |steps|
  {
    if steps == [] then s else Next(After(s, steps[..|steps| - 1]), steps[|steps| - 1])
  }

  const EMPTY := System([], [], false, map[])

  // ---- an intent's path through the matrix --------------------------------

  predicate Moves(r: Record, intent: string) { r.event.Transition? && r.intentId == Some(intent) }

  /** The transitions of one intent, in the order they stand. */
  function Path(log: seq<Record>, intent: string): (p: seq<Event>)
    ensures forall i :: 0 <= i < |p| ==> p[i].Transition?
  {
    if log == [] then []
    else Path(log[..|log| - 1], intent) + (if Moves(log[|log| - 1], intent) then [log[|log| - 1].event] else [])
  }

  lemma PathStep(log: seq<Record>, r: Record, intent: string)
    ensures Path(log + [r], intent) == Path(log, intent) + (if Moves(r, intent) then [r.event] else [])
  {
    assert (log + [r])[..|log|] == log;
  }

  lemma {:induction false} PathDrop(log: seq<Record>, intent: string)
    requires log != []
    ensures Path(log, intent) == (if Moves(log[0], intent) then [log[0].event] else []) + Path(log[1..], intent)
    decreases |log|
  {
    var n := |log| - 1;
    if n == 0 {
      assert log[..0] == [] && log[1..] == [];
    } else {
      PathDrop(log[..n], intent);
      assert log[..n][1..] == log[1..][..n - 1] && log[1..][|log[1..]| - 1] == log[n];
    }
  }

  /** A path of legal moves from READY that ends at `s`. */
  predicate Walk(p: seq<Event>, s: State)
    decreases |p|
  {
    if p == [] then s == READY
    else
      var e := p[|p| - 1];
      e.Transition? && e.to == s && Target(e.from, e.trigger) == Some(e.to) && Walk(p[..|p| - 1], e.from)
  }

  // ---- what every step keeps ----------------------------------------------

  /** One machine against the last record of its path and its entry in the queue. */
  predicate Consistent(m: Machine, logged: seq<Event>, queued: seq<Event>)
    requires forall i :: 0 <= i < |logged| ==> logged[i].Transition?
  {
    match m.flight
    case Queued(t, to) => Target(m.state, t) == Some(to) && queued == [Transition(m.state, t, to)]
    case Written(to) => LastEdge(logged, m.state, to) && queued == []
    case _ => queued == []
  }

  predicate LastEdge(p: seq<Event>, from: State, to: State)
    requires forall i :: 0 <= i < |p| ==> p[i].Transition?
  {
    p != [] && var e := p[|p| - 1]; e.from == from && e.to == to && Target(from, e.trigger) == Some(to)
  }

  predicate MachineOk(s: System, intent: string) {
    if intent in s.machines then Consistent(s.machines[intent], Path(s.log, intent), Path(s.queue, intent))
    else Path(s.log, intent) == [] && Path(s.queue, intent) == []
  }

  predicate MarkOk(r: Record) { r.event.Transition? ==> r.intentId.Some? && r.result == Some(Name(r.event.to)) }

  predicate Marks(rs: seq<Record>) { forall i :: 0 <= i < |rs| ==> MarkOk(rs[i]) }

  ghost predicate Inv(s: System) { (forall intent :: MachineOk(s, intent)) && Marks(s.log) && Marks(s.queue) }

  lemma StepKeepsMachine(s: System, step: Step, x: string)
    requires MachineOk(s, x) && Marks(s.queue)
    ensures MachineOk(Next(s, step), x)
  {
    hide Target, Name, Path, MarkOk, LastEdge;
    var s' := Next(s, step);
    match step {
      case Advance(intent, trigger, id) =>
        if s' != s {
          PathStep(s.queue, s'.queue[|s.queue|], x);
          assert s'.queue[|s.queue|].intentId == Some(intent);
        }
      case Other(record) =>
        PathStep(s.queue, record, x);
      case ApplyNext(fault) =>
        if s.queue != [] {
          PathDrop(s.queue, x);
          PathStep(s.log, s.queue[0], x);
          HeadMoves(s, fault, x);
        }
      case _ =>
    }
  }

  /** The head of the queue, seen by one machine. */
  lemma HeadMoves(s: System, fault: Fault, x: string)
    requires MachineOk(s, x) && s.queue != [] && MarkOk(s.queue[0])
    requires Path(s.queue, x) == (if Moves(s.queue[0], x) then [s.queue[0].event] else []) + Path(s.queue[1..], x)
    requires Path(s.log + [s.queue[0]], x) == Path(s.log, x) + (if Moves(s.queue[0], x) then [s.queue[0].event] else [])
    ensures MachineOk(Next(s, ApplyNext(fault)), x)
  {
    hide Target, Name, Path;
    var r := s.queue[0];
    var rest := Path(s.queue[1..], x);
    assert [] + rest == rest && Path(s.log, x) + [] == Path(s.log, x);
    if Moves(r, x) {
      HeadIsQueued(s, x);
      assert Path(s.queue[1..], x) == Path(s.queue, x)[1..] == [];
    }
  }

  /** The only entry of a machine in the queue is the one it waits for. */
  lemma HeadIsQueued(s: System, x: string)
    requires MachineOk(s, x) && s.queue != [] && Moves(s.queue[0], x)
    ensures x in s.machines && s.machines[x].flight.Queued?
    ensures var m := s.machines[x];
            Target(m.state, m.flight.trigger) == Some(m.flight.to) && s.queue[0].event == Transition(m.state, m.flight.trigger, m.flight.to)
  {
    hide Target, Path;
    PathDrop(s.queue, x);
    assert Path(s.queue, x) != [] && Path(s.queue, x)[0] == s.queue[0].event;
  }

  lemma StepKeepsMarks(s: System, step: Step)
    requires Marks(s.log) && Marks(s.queue)
    ensures Marks(Next(s, step).log) && Marks(Next(s, step).queue)
  {
    hide Target, Name;
  }

  lemma {:induction false} RunKeepsInv(s: System, steps: seq<Step>)
    requires Inv(s)
    ensures Inv(After(s, steps))
    decreases |steps|
  {
    hide MachineOk, Next, Marks;
    if steps != [] {
      var t := After(s, steps[..|steps| - 1]);
      RunKeepsInv(s, steps[..|steps| - 1]);
      forall x
        ensures MachineOk(After(s, steps), x)
      {
        StepKeepsMachine(t, steps[|steps| - 1], x);
      }
      StepKeepsMarks(t, steps[|steps| - 1]);
    }
  }

  lemma EmptyIsInv()
    ensures Inv(EMPTY)
  {}

  // ---- torn moves ---------------------------------------------------------

  /** The state an intent's last whole append named: that of its machine, or the one it
      is just waking into. */
  function Standing(s: System, x: string): (r: State) {
    if x !in s.machines then READY
    else if s.machines[x].flight.Written? then s.machines[x].flight.to
    else s.machines[x].state
  }

  /** This step tears the record of a move of `x` into `to`. */
  predicate TearsInto(s: System, step: Step, x: string, to: State) {
    step == ApplyNext(Torn) && s.queue != [] && Moves(s.queue[0], x) && s.queue[0].event.to == to
  }

  /** This step tears a move that leads anywhere else than it started. */
  predicate TearsMove(s: System, step: Step, x: string) {
    && step == ApplyNext(Torn) && s.queue != [] && Moves(s.queue[0], x)
    && var e := s.queue[0].event; !(e.from == RECOVERY_REQUIRED && e.trigger == RECONCILE_DIVERGENCE)
  }

  predicate MoveTorn(s: System, steps: seq<Step>, x: string)
    decreases |steps|
  {
    steps != [] && var front := steps[..|steps| - 1];
                   MoveTorn(s, front, x) || TearsMove(After(s, front), steps[|steps| - 1], x)
  }

  predicate TornInto(s: System, steps: seq<Step>, x: string, to: State)
    decreases |steps|
  {
    steps != [] && var front := steps[..|steps| - 1];
                   TornInto(s, front, x, to) || TearsInto(After(s, front), steps[|steps| - 1], x, to)
  }

  /** One more legal edge: the walk goes on where it stood, and nowhere else. */
  lemma WalkStep(p: seq<Event>, from: State, t: Trigger, to: State, s: State)
    requires Target(from, t) == Some(to)
    ensures Walk(p + [Transition(from, t, to)], s) <==> s == to && Walk(p, from)
  {
    assert (p + [Transition(from, t, to)])[..|p|] == p;
  }

  /** What one step appends to a path: the record of one legal edge from where the
      machine stands, which it will stand behind unless the append is torn. */
  lemma PathGrows(s: System, step: Step, x: string)
    requires MachineOk(s, x)
    ensures var s' := Next(s, step);
            || (&& Path(s'.log, x) == Path(s.log, x) && Standing(s', x) == Standing(s, x)
                && !TearsMove(s, step, x) && forall to :: !TearsInto(s, step, x, to))
            || (&& step.ApplyNext? && !step.fault.Lost? && s.queue != [] && Moves(s.queue[0], x)
                && var e := s.queue[0].event;
                   && Path(s'.log, x) == Path(s.log, x) + [e] && Standing(s, x) == e.from && Target(e.from, e.trigger) == Some(e.to)
                   && Standing(s', x) == if step.fault.Torn? then e.from else e.to)
  {
    hide Target, Name, Path;
    if step.ApplyNext? && s.queue != [] {
      PathStep(s.log, s.queue[0], x);
      assert Path(s.log, x) + [] == Path(s.log, x);
      if Moves(s.queue[0], x) { HeadIsQueued(s, x); }
    }
  }

  lemma {:induction false} WalksUnlessTorn(steps: seq<Step>, x: string)
    ensures var s := After(EMPTY, steps); Walk(Path(s.log, x), Standing(s, x)) <==> !MoveTorn(EMPTY, steps, x)
    decreases |steps|
  {
    hide Target, Next, Path, Walk, Inv, Standing, Moves;
    if steps == [] {
      EmptyWalk(x);
    } else {
      var front, last := steps[..|steps| - 1], steps[|steps| - 1];
      var t := After(EMPTY, front);
      WalksUnlessTorn(front, x);
      EmptyIsInv();
      RunKeepsInv(EMPTY, front);
      WalkGoesOn(t, last, x);
    }
  }

  lemma WalkGoesOn(s: System, step: Step, x: string)
    requires Inv(s)
    ensures var s' := Next(s, step);
            Walk(Path(s'.log, x), Standing(s', x)) <==> Walk(Path(s.log, x), Standing(s, x)) && !TearsMove(s, step, x)
  {
    hide Target, Next, Path, Walk, Standing;
    assert MachineOk(s, x);
    PathGrows(s, step, x);
    if Path(Next(s, step).log, x) != Path(s.log, x) {
      var e := s.queue[0].event;
      WalkStep(Path(s.log, x), e.from, e.trigger, e.to, Standing(Next(s, step), x));
      OnlyLoop(e.from, e.trigger);
    }
  }

  lemma EmptyWalk(x: string)
    ensures Walk(Path(EMPTY.log, x), Standing(EMPTY, x))
  {}

  // ---- main results -------------------------------------------------------

  /** Whatever the interleaving and the faults, an intent's logged moves form one connected
      path of legal edges from READY to where its machine stands if and only if no move of
      it was torn, the loop from recovery to recovery excepted. */
  lemma LoggedPathEndsHere(steps: seq<Step>, x: string)
    ensures var s := After(EMPTY, steps); Walk(Path(s.log, x), Standing(s, x)) <==> !MoveTorn(EMPTY, steps, x)
    ensures (forall i :: 0 <= i < |steps| ==> steps[i] != ApplyNext(Torn)) ==> !MoveTorn(EMPTY, steps, x)
  {
    hide Walk, Path, After;
    WalksUnlessTorn(steps, x);
    if forall i :: 0 <= i < |steps| ==> steps[i] != ApplyNext(Torn) { NoTearsNoTorn(EMPTY, steps, x); }
  }

  lemma {:induction false} NoTearsNoTorn(s: System, steps: seq<Step>, x: string)
    requires forall i :: 0 <= i < |steps| ==> steps[i] != ApplyNext(Torn)
    ensures !MoveTorn(s, steps, x)
    decreases |steps|
  {
    hide After;
    if steps != [] { NoTearsNoTorn(s, steps[..|steps| - 1], x); }
  }

  /** A machine moves only when it wakes after its record was written, and then along an
      edge of the matrix that its last record names; a lost or torn append leaves it where
      it was. */
  lemma MovesOnlyWhenWritten(s: System, step: Step, x: string)
    requires MachineOk(s, x) && x in s.machines
    ensures var m, m' := s.machines[x], Next(s, step).machines[x];
            m'.state != m.state ==>
              step == Resume(x) && m.flight == Written(m'.state) && LastEdge(Path(s.log, x), m.state, m'.state)
    ensures x in Next(s, step).machines
  {
    hide Target, Path, Name;
  }

  lemma {:induction false} WalkFacts(p: seq<Event>, s: State)
    requires Walk(p, s)
    ensures forall i :: 0 <= i < |p| ==> p[i].Transition?
    ensures forall i :: 0 < i < |p| ==> p[i].from != READY && p[i].from == p[i - 1].to
    ensures p != [] ==> p[0].from == READY && s != READY
    decreases |p|
  {
    if p != [] {
      var e, front := p[|p| - 1], p[..|p| - 1];
      WalkFacts(front, e.from);
      EndsOfTheLine(e.from, e.trigger);
      hide Target;
      if front != [] { assert front[|front| - 1].to == e.from; }
      assert forall i :: 0 <= i < |front| ==> p[i] == front[i];
    }
  }

  /** A machine's log holds at most one submission: nothing leads back to READY. */
  lemma SubmitsAtMostOnce(p: seq<Event>, s: State, i: nat, j: nat)
    requires Walk(p, s) && i < |p| && j < |p|
    requires p[i].Transition? && p[i].trigger == SUBMIT_ORDER && p[j].Transition? && p[j].trigger == SUBMIT_ORDER
    ensures i == j == 0
  {
    WalkFacts(p, s);
    WalkEdges(p, s, i);
    WalkEdges(p, s, j);
    OnlyReadySubmits(p[i].from);
    OnlyReadySubmits(p[j].from);
  }

  lemma OnlyReadySubmits(s: State)
    ensures Target(s, SUBMIT_ORDER).Some? ==> s == READY
  {}

  lemma {:induction false} WalkEdges(p: seq<Event>, s: State, i: nat)
    requires Walk(p, s) && i < |p|
    ensures p[i].Transition? && Target(p[i].from, p[i].trigger) == Some(p[i].to)
    decreases |p|
  {
    hide Target;
    if i < |p| - 1 { WalkEdges(p[..|p| - 1], p[|p| - 1].from, i); }
  }

  // ---- the ledger's check for an intent -----------------------------------

  predicate Reconciles(r: Record, intent: string) { r.intentId == Some(intent) && r.result == Some("RECONCILED") }

  predicate SaysReconciled(log: seq<Record>, intent: string) {
    exists i :: 0 <= i < |log| && Reconciles(log[i], intent)
  }

  /** Some record that is no move carries the mark, as an outcome's free exit reason may. */
  predicate OtherwiseMarked(log: seq<Record>, intent: string) {
    exists i :: 0 <= i < |log| && Reconciles(log[i], intent) && !log[i].event.Transition?
  }

  predicate Into(p: seq<Event>, to: State)
    requires forall i :: 0 <= i < |p| ==> p[i].Transition?
  {
    exists i :: 0 <= i < |p| && p[i].to == to
  }

  lemma IntoStep(p: seq<Event>, e: Event, to: State)
    requires e.Transition? && forall i :: 0 <= i < |p| ==> p[i].Transition?
    ensures Into(p + [e], to) <==> Into(p, to) || e.to == to
  {
    var q := p + [e];
    assert q[|p|] == e && forall i :: 0 <= i < |p| ==> q[i] == p[i];
  }

  lemma SaysStep(log: seq<Record>, r: Record, x: string)
    ensures SaysReconciled(log + [r], x) <==> SaysReconciled(log, x) || Reconciles(r, x)
    ensures OtherwiseMarked(log + [r], x) <==> OtherwiseMarked(log, x) || (Reconciles(r, x) && !r.event.Transition?)
  {
    var l := log + [r];
    assert l[|log|] == r && forall i :: 0 <= i < |log| ==> l[i] == log[i];
  }

  lemma {:induction false} SaysWhatPathSays(log: seq<Record>, x: string)
    requires Marks(log)
    ensures SaysReconciled(log, x) <==> Into(Path(log, x), RECONCILED) || OtherwiseMarked(log, x)
    decreases |log|
  {
    if log != [] {
      var front, r := log[..|log| - 1], log[|log| - 1];
      SaysWhatPathSays(front, x);
      assert MarkOk(r) && log == front + [r];
      SaysStep(front, r, x);
      PathStep(front, r, x);
      if r.event.Transition? { OnlyReconciledIsSpeltSo(r.event.to); }
      hide SaysReconciled, OtherwiseMarked, Into, Path, Name;
      if Moves(r, x) {
        IntoStep(Path(front, x), r.event, RECONCILED);
      } else {
        assert Path(front, x) + [] == Path(front, x);
      }
    }
  }

  /** An intent's path leads into RECONCILED if its machine stands there, or if a move into
      that state was torn. */
  lemma {:induction false} PathIntoReconciled(steps: seq<Step>, x: string)
    ensures var s := After(EMPTY, steps);
            Into(Path(s.log, x), RECONCILED) <==> Standing(s, x) == RECONCILED || TornInto(EMPTY, steps, x, RECONCILED)
    decreases |steps|
  {
    hide Target, Next, Path, Inv, Into, Standing, Moves;
    if steps == [] {
      EmptyInto(x);
    } else {
      var front, last := steps[..|steps| - 1], steps[|steps| - 1];
      var t := After(EMPTY, front);
      PathIntoReconciled(front, x);
      EmptyIsInv();
      RunKeepsInv(EMPTY, front);
      ReconciledGoesOn(t, last, x);
    }
  }

  lemma EmptyInto(x: string)
    ensures !Into(Path(EMPTY.log, x), RECONCILED) && Standing(EMPTY, x) != RECONCILED
  {}

  lemma ReconciledGoesOn(s: System, step: Step, x: string)
    requires Inv(s)
    ensures var s' := Next(s, step);
            && (Into(Path(s'.log, x), RECONCILED) <==>
                  Into(Path(s.log, x), RECONCILED) || TearsInto(s, step, x, RECONCILED)
                  || (Standing(s', x) == RECONCILED && Standing(s, x) != RECONCILED))
            && (Standing(s, x) == RECONCILED ==> Standing(s', x) == RECONCILED)
  {
    hide Target, Next, Path, Into, Standing;
    assert MachineOk(s, x);
    PathGrows(s, step, x);
    if Path(Next(s, step).log, x) != Path(s.log, x) {
      var e := s.queue[0].event;
      IntoStep(Path(s.log, x), e, RECONCILED);
      EndsOfTheLine(e.from, e.trigger);
    }
  }

  /** After any run the ledger's check passes for an intent exactly when its machine is
      reconciled (or just waking into that state), or a move into that state was torn, or
      some other record of the intent happens to carry the mark. */
  lemma CheckMeansReconciled(steps: seq<Step>, x: string)
    ensures var s := After(EMPTY, steps);
            SaysReconciled(s.log, x) <==>
              Standing(s, x) == RECONCILED || TornInto(EMPTY, steps, x, RECONCILED) || OtherwiseMarked(s.log, x)
  {
    hide Path, After, Marks, SaysReconciled, MachineOk, Into, Standing, OtherwiseMarked;
    EmptyIsInv();
    RunKeepsInv(EMPTY, steps);
    SaysWhatPathSays(After(EMPTY, steps).log, x);
    PathIntoReconciled(steps, x);
  }

  // ---- while the ledger is blocked ----------------------------------------

  /** How far a machine may have come since the block: the rest of the one request that
      was already queued, and nothing more. */
  predicate OnlyFinishes(m: Machine, m': Machine) {
    || m' == m
    || (m'.flight == Idle && m'.state == m.state && m.flight != Idle)
    || (m.flight.Queued? && m'.state == m.state && m'.flight in {Failed, Written(m.flight.to)})
    || (m.flight.Queued? && m' == Machine(m.flight.to, Idle))
    || (m.flight.Written? && m' == Machine(m.flight.to, Idle))
  }

  ghost predicate FinishesFrom(s: System, t: System) {
    forall x :: x in s.machines ==> x in t.machines && OnlyFinishes(s.machines[x], t.machines[x])
  }

  lemma FinishStep(s: System, t: System, step: Step, x: string)
    requires Inv(t) && t.blocked && x in s.machines && x in t.machines && OnlyFinishes(s.machines[x], t.machines[x])
    ensures x in Next(t, step).machines && OnlyFinishes(s.machines[x], Next(t, step).machines[x])
  {
    hide Target, Name, Path, LastEdge;
    assert MachineOk(t, x);
    if step.ApplyNext? && t.queue != [] && Moves(t.queue[0], x) { HeadIsQueued(t, x); }
  }

  predicate KeepsBlock(steps: seq<Step>) { forall i :: 0 <= i < |steps| ==> steps[i] != Reconciled(false) }

  /** While the block stands no machine begins a move: each at most finishes the one
      whose record was queued before. In particular a machine that was idle stays put. */
  lemma {:induction false} BlockedLedgerStopsMachines(s: System, steps: seq<Step>)
    requires Inv(s) && s.blocked && KeepsBlock(steps)
    ensures After(s, steps).blocked && FinishesFrom(s, After(s, steps))
    ensures forall x :: x in s.machines && s.machines[x].flight == Idle ==> After(s, steps).machines[x] == s.machines[x]
    decreases |steps|
  {
    hide Inv, Target;
    if steps != [] {
      var front, last := steps[..|steps| - 1], steps[|steps| - 1];
      var t := After(s, front);
      BlockedLedgerStopsMachines(s, front);
      RunKeepsInv(s, front);
      forall x | x in s.machines
        ensures x in Next(t, last).machines && OnlyFinishes(s.machines[x], Next(t, last).machines[x])
      {
        FinishStep(s, t, last, x);
      }
    }
  }

  /** A machine whose request for another state is on its way. */
  predicate UnderWay(m: Machine) { (m.flight.Queued? || m.flight.Written?) && m.flight.to != m.state }

  predicate MovedBy(s: System, steps: seq<Step>, x: string)
    requires x in s.machines
  {
    x in After(s, steps).machines && After(s, steps).machines[x].state != s.machines[x].state
  }

  /** The writer takes `n` entries and nothing fails. */
  function Drain(n: nat): (steps: seq<Step>) {
    if n == 0 then [] else Drain(n - 1) + [ApplyNext(Landed)]
  }

  lemma {:induction false} Drained(s: System, x: string, n: nat)
    requires Inv(s) && n <= |s.queue| && x in s.machines && UnderWay(s.machines[x])
    ensures KeepsBlock(Drain(n))
    ensures var t, m := After(s, Drain(n)), s.machines[x];
            && Inv(t) && t.queue == s.queue[n..]
            && x in t.machines && t.machines[x] in {m, m.(flight := Written(m.flight.to))}
  {
    hide Inv, Target;
    RunKeepsInv(s, Drain(n));
    if n > 0 {
      Drained(s, x, n - 1);
      AfterStep(s, Drain(n - 1), ApplyNext(Landed));
      DrainStep(After(s, Drain(n - 1)), x);
    }
  }

  lemma DrainStep(t: System, x: string)
    requires Inv(t) && t.queue != [] && x in t.machines
    ensures var t', m := Next(t, ApplyNext(Landed)), t.machines[x];
            && t'.queue == t.queue[1..] && x in t'.machines
            && (t'.machines[x] == m || (m.flight.Queued? && t'.machines[x] == m.(flight := Written(m.flight.to))))
  {
    hide Target, Path, Name;
    assert MachineOk(t, x);
    if Moves(t.queue[0], x) { HeadIsQueued(t, x); }
  }

  /** Under the block a machine can still change its state if and only if a request for
      another state is on its way: the writer empties its queue and the machine wakes. */
  lemma MovesUnderBlock(s: System, x: string)
    requires Inv(s) && s.blocked && x in s.machines
    ensures UnderWay(s.machines[x]) <==> exists steps :: KeepsBlock(steps) && MovedBy(s, steps, x)
  {
    hide Inv, Target, After;
    if steps :| KeepsBlock(steps) && MovedBy(s, steps, x) {
      BlockedLedgerStopsMachines(s, steps);
    }
    if UnderWay(s.machines[x]) {
      var n := |s.queue|;
      Drained(s, x, n);
      var t := After(s, Drain(n));
      NothingQueued(t, x);
      AfterStep(s, Drain(n), Resume(x));
      var steps := Drain(n) + [Resume(x)];
      assert KeepsBlock(steps) && MovedBy(s, steps, x);
    }
  }

  lemma NothingQueued(t: System, x: string)
    requires Inv(t) && t.queue == [] && x in t.machines
    ensures !t.machines[x].flight.Queued?
  {
    assert MachineOk(t, x);
  }

  /** Such a machine is within reach: its record was queued before the block. */
  lemma QueuedMoveFinishesUnderBlock()
    ensures var steps := [Create("a"), Advance("a", SUBMIT_ORDER, "e"), Reconciled(true), ApplyNext(Landed), Resume("a")];
            var s := After(EMPTY, steps);
            s.blocked && "a" in s.machines && s.machines["a"].state == SUBMITTING
  {
    var steps := [Create("a"), Advance("a", SUBMIT_ORDER, "e"), Reconciled(true), ApplyNext(Landed), Resume("a")];
    AfterStep(EMPTY, [], steps[0]);
    AfterStep(EMPTY, [steps[0]], steps[1]);
    AfterStep(EMPTY, steps[..2], steps[2]);
    AfterStep(EMPTY, steps[..3], steps[3]);
    AfterStep(EMPTY, steps[..4], steps[4]);
    assert [] + [steps[0]] == [steps[0]] && [steps[0]] + [steps[1]] == steps[..2] && steps[..2] + [steps[2]] == steps[..3];
    assert steps[..3] + [steps[3]] == steps[..4] && steps[..4] + [steps[4]] == steps;
    assert After(EMPTY, steps[..2]).machines["a"] == Machine(READY, Queued(SUBMIT_ORDER, SUBMITTING));
  }

  lemma AfterStep(s: System, steps: seq<Step>, step: Step)
    ensures After(s, steps + [step]) == Next(After(s, steps), step)
  {
    assert (steps + [step])[..|steps|] == steps;
  }
}
