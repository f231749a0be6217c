/** The paper-trading cycle: which cells are due, the shared trade budget under every
    interleaving of the cells' stages, and the durable close lock. */
module PaperLoop {
  import opened Wrappers

  /** A cell and the close it is listed for. */
  datatype Due = Due(cell: string, close: nat)

  // ---- the trade budget ---------------------------------------------------

  /** Where one cell's run stands with the budget. A fault after the reservation keeps
      the slot: the order may have left. */
  datatype Stage = Waiting | Refused | Reserved | Submitted | Unsubmitted | Faulted

  function Slot(st: Stage): (n: nat) { if st.Reserved? || st.Submitted? || st.Faulted? then 1 else 0 }

  function Work(st: Stage): (n: nat) { if st.Waiting? then 2 else if st.Reserved? then 1 else 0 }

  function Total(stages: seq<Stage>, weight: Stage -> nat): (n: nat) {
    if stages == [] then 0 else Total(stages[..|stages| - 1], weight) + weight(stages[|stages| - 1])
  }

  lemma {:induction false} TotalUpdate(stages: seq<Stage>, i: nat, st: Stage, weight: Stage -> nat)
    requires i < |stages|
    ensures Total(stages[i := st], weight) == Total(stages, weight) - weight(stages[i]) + weight(st)
    decreases |stages|
  {
    var last := |stages| - 1;
    if i == last {
      assert stages[i := st][..last] == stages[..last];
    } else {
      TotalUpdate(stages[..last], i, st, weight);
      assert stages[i := st][..last] == stages[..last][i := st];
    }
  }

  lemma {:induction false} TotalAtLeast(stages: seq<Stage>, i: nat, weight: Stage -> nat)
    requires i < |stages|
    ensures Total(stages, weight) >= weight(stages[i])
    decreases |stages|
  {
    if i < |stages| - 1 { TotalAtLeast(stages[..|stages| - 1], i, weight); }
  }

  lemma {:induction false} NothingHeldYet(stages: seq<Stage>)
    requires forall i :: 0 <= i < |stages| ==> stages[i].Waiting?
    ensures Total(stages, Slot) == 0
  {
    if stages != [] { NothingHeldYet(stages[..|stages| - 1]); }
  }

  predicate Finished(st: Stage) { !st.Waiting? && !st.Reserved? }

  /** The due cells whose order may have left the process. */
  function Sent(due: seq<Due>, stages: seq<Stage>): (r: seq<Due>)
    requires |due| == |stages|
  {
    if due == [] then []
    else
      var n := |due| - 1;
      Sent(due[..n], stages[..n]) + (if Left(stages[n]) then [due[n]] else [])
  }

  predicate DistinctCells(ds: seq<Due>) { forall i, j :: 0 <= i < j < |ds| ==> ds[i].cell != ds[j].cell }

  /** The order of a cell in this stage may have left. */
  predicate Left(st: Stage) { st.Submitted? || st.Faulted? }

  predicate LeftFor(due: seq<Due>, stages: seq<Stage>, d: Due, i: nat) { i < |due| == |stages| && due[i] == d && Left(stages[i]) }

  lemma {:induction false} SentMembers(due: seq<Due>, stages: seq<Stage>, d: Due)
    requires |due| == |stages|
    ensures d in Sent(due, stages) <==> exists i: nat :: LeftFor(due, stages, d, i)
    decreases |due|
  {
    hide LeftFor;
    if due == [] {
      NobodyLeft(stages, d);
    } else {
      var n := |due| - 1;
      SentMembers(due[..n], stages[..n], d);
      OneMoreLeft(due, stages, d);
      var front := Sent(due[..n], stages[..n]);
      assert d in front + [due[n]] <==> d in front || due[n] == d;
      assert front + [] == front;
    }
  }

  lemma NobodyLeft(stages: seq<Stage>, d: Due)
    ensures forall i: nat :: !LeftFor([], stages, d, i)
  {}

  lemma OneMoreLeft(due: seq<Due>, stages: seq<Stage>, d: Due)
    requires |due| == |stages| && due != []
    ensures var n := |due| - 1;
            (exists i: nat :: LeftFor(due, stages, d, i)) <==>
              (exists i: nat :: LeftFor(due[..n], stages[..n], d, i)) || (Left(stages[n]) && due[n] == d)
  {
    hide Left;
    var n := |due| - 1;
    if i: nat :| LeftFor(due, stages, d, i) {
      if i < n { assert LeftFor(due[..n], stages[..n], d, i); }
    }
    if i: nat :| LeftFor(due[..n], stages[..n], d, i) { assert LeftFor(due, stages, d, i); }
    if Left(stages[n]) && due[n] == d { assert LeftFor(due, stages, d, n); }
  }

  lemma {:induction false} SentCount(due: seq<Due>, stages: seq<Stage>)
    requires |due| == |stages|
    ensures |Sent(due, stages)| <= Total(stages, Slot)
    decreases |due|
  {
    if due != [] { SentCount(due[..|due| - 1], stages[..|due| - 1]); }
  }

  lemma {:induction false} SentDistinct(due: seq<Due>, stages: seq<Stage>)
    requires |due| == |stages| && DistinctCells(due)
    ensures DistinctCells(Sent(due, stages))
    decreases |due|
  {
    if due != [] {
      var n := |due| - 1;
      var front := Sent(due[..n], stages[..n]);
      SentDistinct(due[..n], stages[..n]);
      forall k | 0 <= k < |front|
        ensures front[k].cell != due[n].cell
      {
        assert front[k] in front;
        SentMembers(due[..n], stages[..n], front[k]);
      }
    }
  }

  /** How an execution ends: the order was submitted, the venue path declined it, or an
      exception left it. */
  datatype End = Submits | Declines | Raises

  /** What each cell of a cycle comes to: whether its stages reach a valid plan with a
      price, and how its execution ends. */
  datatype World = World(plans: Due -> bool, ends: Due -> End)

  predicate Wants(d: Due, failed: set<string>, w: World) { w.plans(d) && d.cell !in failed }

  /** How many cells want a slot. */
  function Wanting(due: seq<Due>, failed: set<string>, w: World): (n: nat) {
    if due == [] then 0 else Wanting(due[..|due| - 1], failed, w) + (if Wants(due[|due| - 1], failed, w) then 1 else 0)
  }

  function EndStage(end: End): (st: Stage) { match end case Submits => Submitted case Declines => Unsubmitted case Raises => Faulted }

  /** One step of the cells' stages: a cell at its turn takes a slot, if it wants one and
      fewer than the maximum are held, or is refused; or a cell that holds a slot ends.
      Nothing else moves. */
  predicate StageStep(due: seq<Due>, failed: set<string>, maxTrades: int, w: World, s: seq<Stage>, s': seq<Stage>) {
    |s| == |due| && exists i :: 0 <= i < |s| && OneMoves(s, s', i) && StageMoves(due[i], failed, w, Total(s, Slot) < maxTrades, s[i], s'[i])
  }

  predicate OneMoves(s: seq<Stage>, s': seq<Stage>, i: nat) { i < |s| == |s'| && s' == s[i := s'[i]] }

  predicate StageMoves(d: Due, failed: set<string>, w: World, room: bool, from: Stage, to: Stage) {
    match from
    case Waiting => to == if Wants(d, failed, w) && room then Reserved else Refused
    case Reserved => to == EndStage(w.ends(d))
    case _ => false
  }

  function Slots(maxTrades: int): (n: nat) { if maxTrades < 0 then 0 else maxTrades }

  /** Every state the cells' stages go through, first to last. */
  ghost predicate StageRun(due: seq<Due>, failed: set<string>, maxTrades: int, w: World, trace: seq<seq<Stage>>) {
    && trace != [] && |trace[0]| == |due| && (forall i :: 0 <= i < |due| ==> trace[0][i].Waiting?)
    && (forall k :: 0 < k < |trace| ==> StageStep(due, failed, maxTrades, w, trace[k - 1], trace[k]))
  }

  /** What a cell's stage may be, and that only a cell that wants a slot ever holds one. */
  predicate StageOk(d: Due, failed: set<string>, w: World, st: Stage) {
    st.Waiting? || st.Refused? || (Wants(d, failed, w) && (st.Reserved? || st == EndStage(w.ends(d))))
  }

  /** At no moment of any interleaving are more slots held than the cycle may trade. */
  lemma {:induction false} SlotsNeverExceed(due: seq<Due>, failed: set<string>, maxTrades: int, w: World, trace: seq<seq<Stage>>, k: nat)
    requires StageRun(due, failed, maxTrades, w, trace) && k < |trace|
    ensures |trace[k]| == |due| && Total(trace[k], Slot) <= Slots(maxTrades)
    ensures forall i :: 0 <= i < |due| ==> StageOk(due[i], failed, w, trace[k][i])
  {
    hide Wants, Total, StageStep, Slots;
    if k == 0 {
      NothingHeldYet(trace[0]);
    } else {
      SlotsNeverExceed(due, failed, maxTrades, w, trace, k - 1);
      assert StageStep(due, failed, maxTrades, w, trace[k - 1], trace[k]);
      StepWithinSlots(due, failed, maxTrades, w, trace[k - 1], trace[k]);
    }
  }

  lemma StepWithinSlots(due: seq<Due>, failed: set<string>, maxTrades: int, w: World, s: seq<Stage>, s': seq<Stage>)
    requires StageStep(due, failed, maxTrades, w, s, s') && Total(s, Slot) <= Slots(maxTrades)
    requires forall i :: 0 <= i < |due| ==> StageOk(due[i], failed, w, s[i])
    ensures |s'| == |due| && Total(s', Slot) <= Slots(maxTrades)
    ensures forall i :: 0 <= i < |due| ==> StageOk(due[i], failed, w, s'[i])
  {
    hide Wants, Total;
    var i :| 0 <= i < |s| && OneMoves(s, s', i) && StageMoves(due[i], failed, w, Total(s, Slot) < maxTrades, s[i], s'[i]);
    TotalUpdate(s, i, s'[i], Slot);
  }

  lemma TraceGrows(due: seq<Due>, failed: set<string>, maxTrades: int, w: World, trace: seq<seq<Stage>>, s: seq<Stage>, i: nat)
    requires StageRun(due, failed, maxTrades, w, trace) && i < |due|
    requires OneMoves(trace[|trace| - 1], s, i)
    requires StageMoves(due[i], failed, w, Total(trace[|trace| - 1], Slot) < maxTrades, trace[|trace| - 1][i], s[i])
    ensures StageRun(due, failed, maxTrades, w, trace + [s])
  {
    hide Total, StageMoves;
    SlotsNeverExceed(due, failed, maxTrades, w, trace, |trace| - 1);
    assert StageStep(due, failed, maxTrades, w, trace[|trace| - 1], s);
  }

  /** At some moment as many slots were held as the cycle may trade. */
  ghost predicate WasFull(trace: seq<seq<Stage>>, maxTrades: int) { exists k :: 0 <= k < |trace| && Total(trace[k], Slot) >= maxTrades }

  /** A cell that wants a slot ends as its execution does, unless the slots were all held
      at its turn; one that does not is refused. */
  lemma HowItEnds(due: seq<Due>, failed: set<string>, maxTrades: int, w: World, trace: seq<seq<Stage>>, i: nat)
    requires StageRun(due, failed, maxTrades, w, trace) && i < |due| && |trace[|trace| - 1]| == |due| && Finished(trace[|trace| - 1][i])
    ensures var st := trace[|trace| - 1][i];
            if !Wants(due[i], failed, w) then st.Refused?
            else st == EndStage(w.ends(due[i])) || (st.Refused? && WasFull(trace, maxTrades))
  {
    SlotsNeverExceed(due, failed, maxTrades, w, trace, |trace| - 1);
    if trace[|trace| - 1][i].Refused? { RefusedWhenFull(due, failed, maxTrades, w, trace, |trace| - 1, i); }
  }

  lemma {:induction false} RefusedWhenFull(due: seq<Due>, failed: set<string>, maxTrades: int, w: World, trace: seq<seq<Stage>>, k: nat, i: nat)
    requires StageRun(due, failed, maxTrades, w, trace) && i < |due| && k < |trace| && |trace[k]| == |due| && trace[k][i].Refused?
    ensures Wants(due[i], failed, w) ==> WasFull(trace, maxTrades)
  {
    hide Wants, Total;
    if k > 0 {
      var s, s' := trace[k - 1], trace[k];
      assert StageStep(due, failed, maxTrades, w, s, s');
      var m :| 0 <= m < |s| && OneMoves(s, s', m) && StageMoves(due[m], failed, w, Total(s, Slot) < maxTrades, s[m], s'[m]);
      if s[i].Refused? {
        RefusedWhenFull(due, failed, maxTrades, w, trace, k - 1, i);
      } else {
        assert m == i;
      }
    }
  }

  /** Where all that want a slot fit in, each of them gets one. */
  lemma {:induction false} NobodyStarves(due: seq<Due>, failed: set<string>, maxTrades: int, w: World, trace: seq<seq<Stage>>, k: nat, i: nat)
    requires StageRun(due, failed, maxTrades, w, trace) && i < |due| && k < |trace| && Wanting(due, failed, w) <= maxTrades
    ensures |trace[k]| == |due| && (Wants(due[i], failed, w) ==> !trace[k][i].Refused?)
  {
    hide Wants, Total, Wanting;
    if k > 0 {
      var s, s' := trace[k - 1], trace[k];
      NobodyStarves(due, failed, maxTrades, w, trace, k - 1, i);
      SlotsNeverExceed(due, failed, maxTrades, w, trace, k - 1);
      assert StageStep(due, failed, maxTrades, w, s, s');
      var m :| 0 <= m < |s| && OneMoves(s, s', m) && StageMoves(due[m], failed, w, Total(s, Slot) < maxTrades, s[m], s'[m]);
      if m == i && s[i].Waiting? && Wants(due[i], failed, w) { SlotsOfWanting(due, failed, w, s, i); }
    }
  }

  /** While one that wants a slot still waits, the others hold fewer than all want. */
  lemma {:induction false} SlotsOfWanting(due: seq<Due>, failed: set<string>, w: World, s: seq<Stage>, i: nat)
    requires |s| == |due| && forall j :: 0 <= j < |due| ==> StageOk(due[j], failed, w, s[j])
    ensures Total(s, Slot) + (if i < |s| && s[i].Waiting? && Wants(due[i], failed, w) then 1 else 0) <= Wanting(due, failed, w)
    decreases |s|
  {
    hide Wants;
    if s != [] {
      var n := |s| - 1;
      SlotsOfWanting(due[..n], failed, w, s[..n], i);
    }
  }

  // ---- the close lock -----------------------------------------------------

  type Cursor = map<string, nat>

  predicate IsDue(d: Due, last: Cursor) { d.cell in last ==> d.close > last[d.cell] }

  function OnlyDue(listed: seq<Due>, last: Cursor): (r: seq<Due>) {
    if listed == [] then []
    else OnlyDue(listed[..|listed| - 1], last) + (if IsDue(listed[|listed| - 1], last) then [listed[|listed| - 1]] else [])
  }

  lemma {:induction false} OnlyDueLaw(listed: seq<Due>, last: Cursor)
    ensures forall d :: d in OnlyDue(listed, last) <==> d in listed && IsDue(d, last)
    ensures DistinctCells(listed) ==> DistinctCells(OnlyDue(listed, last))
    decreases |listed|
  {
    if listed != [] {
      var front, d := listed[..|listed| - 1], listed[|listed| - 1];
      assert listed == front + [d];
      OnlyDueLaw(front, last);
      if DistinctCells(listed) {
        assert forall i :: 0 <= i < |front| ==> front[i] == listed[i];
        assert forall e :: e in OnlyDue(front, last) ==> e in front && e.cell != d.cell;
      }
    }
  }

  /** The cells a cycle runs: the due ones, cut at the cycle's limit. */
  function Cut(due: seq<Due>, maxCells: Option<nat>): (run: seq<Due>) {
    if maxCells.Some? && maxCells.value < |due| then due[..maxCells.value] else due
  }

  lemma RunLaw(listed: seq<Due>, last: Cursor, maxCells: Option<nat>)
    requires DistinctCells(listed)
    ensures var run := Cut(OnlyDue(listed, last), maxCells);
            DistinctCells(run) && forall d :: d in run ==> d in listed && IsDue(d, last)
  {
    hide OnlyDue, IsDue;
    OnlyDueLaw(listed, last);
    var due := OnlyDue(listed, last);
    assert forall d :: d in Cut(due, maxCells) ==> d in due;
  }

  /** Every due cell is run, unless the cycle's limit is used up. */
  lemma RunIsWhole(listed: seq<Due>, last: Cursor, maxCells: Option<nat>)
    ensures var run := Cut(OnlyDue(listed, last), maxCells);
            forall d :: d in listed && IsDue(d, last) ==> d in run || (maxCells.Some? && |run| == maxCells.value)
  {
    hide OnlyDue, IsDue;
    OnlyDueLaw(listed, last);
  }

  /** The statement that records a decision: an older close never replaces a newer one. */
  function Upserted(cursor: Cursor, cell: string, close: nat): (r: Cursor) {
    if cell in cursor && close < cursor[cell] then cursor else cursor[cell := close]
  }

  function Newer(cursor: Cursor, cell: string, close: nat): (r: nat) {
    if cell in cursor && cursor[cell] > close then cursor[cell] else close
  }

  /** How one upsert ends: written; raised with nothing written; or raised with the row
      in the table, as when only the commit fails. */
  datatype Fate = Landed | Lost | Torn

  /** What the loop remembers after the first `n` decisions of a cycle. */
  function Remembered(last: Cursor, run: seq<Due>, failed: set<string>, n: nat): (m: Cursor)
    requires n <= |run|
  {
    if n == 0 then last
    else
      var m, d := Remembered(last, run, failed, n - 1), run[n - 1];
      if d.cell in failed then m else m[d.cell := d.close]
  }

  /** What the table holds after them. */
  function Written(rows: Cursor, run: seq<Due>, failed: set<string>, n: nat): (m: Cursor)
    requires n <= |run|
  {
    if n == 0 then rows
    else
      var m, d := Written(rows, run, failed, n - 1), run[n - 1];
      if d.cell in failed then m else Upserted(m, d.cell, d.close)
  }

  /** One of the first `n` cells of the run, not failed, is this one. */
  predicate DecidedIn(run: seq<Due>, failed: set<string>, n: nat, cell: string)
    requires n <= |run|
  {
    cell !in failed && exists k :: 0 <= k < n && run[k].cell == cell
  }

  predicate SameAt(a: Cursor, b: Cursor, cell: string) { (cell in a <==> cell in b) && (cell in a ==> a[cell] == b[cell]) }

  lemma {:induction false} RememberedLaw(last: Cursor, run: seq<Due>, failed: set<string>, n: nat)
    requires n <= |run| && DistinctCells(run)
    ensures var m := Remembered(last, run, failed, n);
            && (forall k :: 0 <= k < n && run[k].cell !in failed ==> run[k].cell in m && m[run[k].cell] == run[k].close)
            && (forall cell :: !DecidedIn(run, failed, n, cell) ==> SameAt(m, last, cell))
  {
    if n > 0 {
      RememberedLaw(last, run, failed, n - 1);
      assert forall cell :: DecidedIn(run, failed, n, cell) <==>
        DecidedIn(run, failed, n - 1, cell) || (cell == run[n - 1].cell && cell !in failed);
    }
  }

  lemma {:induction false} WrittenLaw(rows: Cursor, run: seq<Due>, failed: set<string>, n: nat)
    requires n <= |run|
    ensures var m := Written(rows, run, failed, n);
            && (forall cell :: cell in rows ==> cell in m && rows[cell] <= m[cell])
            && (forall k :: 0 <= k < n && run[k].cell !in failed ==> run[k].cell in m && m[run[k].cell] >= run[k].close)
            && (forall cell :: !DecidedIn(run, failed, n, cell) ==> SameAt(m, rows, cell))
  {
    if n > 0 {
      WrittenLaw(rows, run, failed, n - 1);
      assert forall cell :: DecidedIn(run, failed, n, cell) <==>
        DecidedIn(run, failed, n - 1, cell) || (cell == run[n - 1].cell && cell !in failed);
    }
  }

  /** The memory never runs ahead of the table. */
  predicate Behind(last: Cursor, rows: Cursor) { forall cell :: cell in last ==> cell in rows && last[cell] <= rows[cell] }

  lemma StaysBehind(last: Cursor, rows: Cursor, run: seq<Due>, failed: set<string>, n: nat, m: nat)
    requires Behind(last, rows) && DistinctCells(run) && n <= m <= |run|
    ensures Behind(Remembered(last, run, failed, n), Written(rows, run, failed, m))
  {
    RememberedLaw(last, run, failed, n);
    WrittenLaw(rows, run, failed, m);
    hide Remembered, Written, DistinctCells;
    forall cell | cell in Remembered(last, run, failed, n)
      ensures cell in Written(rows, run, failed, m) && Remembered(last, run, failed, n)[cell] <= Written(rows, run, failed, m)[cell]
    {
      if DecidedIn(run, failed, n, cell) {
        var k :| 0 <= k < n && run[k].cell == cell;
      } else {
        assert SameAt(Remembered(last, run, failed, n), last, cell);
      }
    }
  }

  // ---- one cycle ----------------------------------------------------------

  /** One cycle: what the loop remembered and the table held before and after, the cells
      listed and run, the orders that may have left, and how many decisions were recorded
      before an upsert raised, with that one's row written if it was torn. */
  datatype Cycle = Cycle(
    gate: Cursor, gateAfter: Cursor, before: Cursor, after: Cursor, listed: seq<Due>, run: seq<Due>, sent: seq<Due>,
    failed: set<string>, decided: nat, torn: bool)

  predicate Lawful(c: Cycle, maxTrades: int, maxCells: Option<nat>) {
    && Behind(c.gate, c.before) && DistinctCells(c.listed) && c.run == Cut(OnlyDue(c.listed, c.gate), maxCells)
    && c.decided <= |c.run| && (c.torn ==> c.decided < |c.run| && c.run[c.decided].cell !in c.failed)
    && c.gateAfter == Remembered(c.gate, c.run, c.failed, c.decided)
    && c.after == Written(c.before, c.run, c.failed, c.decided + if c.torn then 1 else 0)
    && |c.sent| <= Slots(maxTrades) && DistinctCells(c.sent)
    && (forall d :: d in c.sent ==> d in c.run && d.cell !in c.failed)
  }

  /** What a lawful cycle does to a cell: decided at its close, or left alone; and neither
      the memory nor the table ever goes back. */
  lemma CycleEffect(c: Cycle, maxTrades: int, maxCells: Option<nat>)
    requires Lawful(c, maxTrades, maxCells)
    ensures Behind(c.gateAfter, c.after) && Behind(c.gate, c.gateAfter) && Behind(c.before, c.after)
    ensures forall d :: d in c.run ==> d in c.listed && IsDue(d, c.gate)
    ensures forall k :: 0 <= k < c.decided && c.run[k].cell !in c.failed ==>
              c.run[k].cell in c.gateAfter && c.gateAfter[c.run[k].cell] == c.run[k].close
    ensures forall cell :: !DecidedIn(c.run, c.failed, c.decided, cell) ==> SameAt(c.gateAfter, c.gate, cell)
    ensures forall cell :: !DecidedIn(c.run, c.failed, c.decided + if c.torn then 1 else 0, cell) ==> SameAt(c.after, c.before, cell)
  {
    hide IsDue, DistinctCells, OnlyDue, Cut, Remembered, Written, SameAt, Behind, DecidedIn;
    RunLaw(c.listed, c.gate, maxCells);
    RememberedLaw(c.gate, c.run, c.failed, c.decided);
    StaysBehind(c.gate, c.before, c.run, c.failed, c.decided, c.decided + if c.torn then 1 else 0);
    TableGrows(c.before, c.run, c.failed, c.decided + if c.torn then 1 else 0);
    MemoryGrows(c.gate, c.run, c.failed, c.decided);
  }

  lemma TableGrows(rows: Cursor, run: seq<Due>, failed: set<string>, n: nat)
    requires n <= |run|
    ensures Behind(rows, Written(rows, run, failed, n))
    ensures forall cell :: !DecidedIn(run, failed, n, cell) ==> SameAt(Written(rows, run, failed, n), rows, cell)
  {
    WrittenLaw(rows, run, failed, n);
    hide Written, SameAt, DecidedIn;
  }

  lemma MemoryGrows(last: Cursor, run: seq<Due>, failed: set<string>, n: nat)
    requires n <= |run| && DistinctCells(run) && forall d :: d in run ==> IsDue(d, last)
    ensures Behind(last, Remembered(last, run, failed, n))
  {
    RememberedLaw(last, run, failed, n);
    hide Remembered, DistinctCells;
    forall cell | cell in last
      ensures cell in Remembered(last, run, failed, n) && last[cell] <= Remembered(last, run, failed, n)[cell]
    {
      if DecidedIn(run, failed, n, cell) {
        var k :| 0 <= k < n && run[k].cell == cell;
        assert run[k] in run;
      } else {
        SameMeans(Remembered(last, run, failed, n), last, cell);
      }
    }
  }

  lemma SameMeans(a: Cursor, b: Cursor, cell: string)
    requires SameAt(a, b, cell)
    ensures cell in b ==> cell in a && a[cell] == b[cell]
  {}

  /** A cell that failed its catch-up or preparation is due afterwards exactly if it was. */
  lemma FailedStaysDue(c: Cycle, maxTrades: int, maxCells: Option<nat>, d: Due)
    requires Lawful(c, maxTrades, maxCells) && d.cell in c.failed
    ensures IsDue(d, c.gateAfter) <==> IsDue(d, c.gate)
    ensures IsDue(d, c.after) <==> IsDue(d, c.before)
    ensures d !in c.sent
  {
    hide Lawful;
    CycleEffect(c, maxTrades, maxCells);
    assert SameAt(c.gateAfter, c.gate, d.cell) && SameAt(c.after, c.before, d.cell);
    FailedNotSent(c, maxTrades, maxCells, d);
  }

  lemma FailedNotSent(c: Cycle, maxTrades: int, maxCells: Option<nat>, d: Due)
    requires Lawful(c, maxTrades, maxCells) && d.cell in c.failed
    ensures d !in c.sent
  {}

  class CursorStore {
    var rows: Cursor

    constructor ()
      ensures rows == map[]
    {
      rows := map[];
    }

    method Upsert(cell: string, close: nat, fate: Fate) returns (ok: bool)
      modifies this
      ensures rows == if fate.Lost? then old(rows) else Upserted(old(rows), cell, close)
      ensures ok == fate.Landed?
    {
      if fate.Lost? { return false; }
      if cell !in rows || close >= rows[cell] { rows := rows[cell := close]; }
      return fate.Landed?;
    }
  }

  class Loop {
    const store: CursorStore
    const maxTrades: int
    const maxCells: Option<nat>
    var lastClose: Cursor
    var cursorLoaded: bool
    var budgetTaken: nat

    /** A loop opened on a store, first start or restart. */
    constructor (store: CursorStore, maxTrades: int, maxCells: Option<nat>)
      ensures this.store == store && this.maxTrades == maxTrades && this.maxCells == maxCells && budgetTaken == 0 && Valid() && Gate() == store.rows
    {
      this.store, this.maxTrades, this.maxCells := store, maxTrades, maxCells;
      lastClose, cursorLoaded, budgetTaken := map[], false, 0;
    }

    ghost predicate Valid()
      reads this, store
    {
      cursorLoaded ==> Behind(lastClose, store.rows)
    }

    /** What the next cycle will test closes against. */
    ghost function Gate(): (gate: Cursor)
      reads this, store
    {
      if cursorLoaded then lastClose else store.rows
    }

    method TakeBudget() returns (taken: bool)
      modifies this`budgetTaken
      ensures taken <==> old(budgetTaken) < maxTrades
      ensures budgetTaken == old(budgetTaken) + (if taken then 1 else 0)
    {
      if budgetTaken >= maxTrades { return false; }
      budgetTaken := budgetTaken + 1;
      return true;
    }

    method ReleaseBudget()
      modifies this`budgetTaken
      ensures budgetTaken == if old(budgetTaken) > 0 then old(budgetTaken) - 1 else 0
    {
      if budgetTaken > 0 { budgetTaken := budgetTaken - 1; }
    }

    /** The cells' stages, in any interleaving: each step moves one cell past one await. */
    method RunCells(due: seq<Due>, failed: set<string>, w: World) returns (stages: seq<Stage>, ghost trace: seq<seq<Stage>>)
      requires budgetTaken == 0
      modifies this`budgetTaken
      ensures trace != [] && StageRun(due, failed, maxTrades, w, trace) && trace[|trace| - 1] == stages
      ensures forall k :: 0 <= k < |trace| ==> Total(trace[k], Slot) <= Slots(maxTrades)
      ensures |stages| == |due| && forall i :: 0 <= i < |stages| ==> Finished(stages[i])
      ensures budgetTaken == Total(stages, Slot)
    {
      hide Total, Work, Slot, StageRun, StageStep, Slots;
      stages := seq(|due|, _ => Waiting);
      trace := [stages];
      NothingHeldYet(stages);
      FirstTrace(due, failed, maxTrades, w, stages);
      while exists i :: 0 <= i < |stages| && !Finished(stages[i])
        invariant |stages| == |due| && budgetTaken == Total(stages, Slot)
        invariant StageRun(due, failed, maxTrades, w, trace) && trace != [] && trace[|trace| - 1] == stages
        decreases Total(stages, Work)
      {
        var i :| 0 <= i < |stages| && !Finished(stages[i]);
        ghost var before := stages;
        if stages[i].Reserved? {
          TotalAtLeast(stages, i, Slot);
          Weights(stages[i], stages[i]);
          match w.ends(due[i]) {
            case Submits => stages := stages[i := Submitted];
            case Declines => stages := stages[i := Unsubmitted]; ReleaseBudget();
            case Raises => stages := stages[i := Faulted];
          }
        } else if due[i].cell in failed || !w.plans(due[i]) {
          stages := stages[i := Refused];
        } else {
          var taken := TakeBudget();
          stages := stages[i := if taken then Reserved else Refused];
        }
        Weights(before[i], stages[i]);
        TotalUpdate(before, i, stages[i], Slot);
        TotalUpdate(before, i, stages[i], Work);
        assert stages == before[i := stages[i]];
        TraceGrows(due, failed, maxTrades, w, trace, stages, i);
        trace := trace + [stages];
      }
      forall k | 0 <= k < |trace|
        ensures Total(trace[k], Slot) <= Slots(maxTrades)
      {
        SlotsNeverExceed(due, failed, maxTrades, w, trace, k);
      }
    }

    method RunCycle(listed: seq<Due>, catchUpFailed: set<string>, preparationFailed: set<string>, w: World, fates: nat -> Fate)
      returns (sent: seq<Due>, ok: bool, ghost c: Cycle, ghost trace: seq<seq<Stage>>)
      requires Valid() && DistinctCells(listed)
      modifies this`lastClose, this`cursorLoaded, this`budgetTaken, store
      ensures Valid() && cursorLoaded && Lawful(c, maxTrades, maxCells)
      ensures c.gate == old(Gate()) && c.gateAfter == Gate() && c.before == old(store.rows) && c.after == store.rows
      ensures c.listed == listed && c.sent == sent && c.failed == catchUpFailed + preparationFailed
      ensures forall d :: d in listed && (d.cell !in c.gate || d.close > c.gate[d.cell]) ==>
                d in c.run || (maxCells.Some? && |c.run| == maxCells.value)
      ensures forall d :: d in c.run ==> d in listed && (d.cell in c.gate ==> d.close > c.gate[d.cell])
      ensures ok <==> AllLand(c.run, c.failed, fates, |c.run|)
      ensures ok <==> c.decided == |c.run|
      ensures trace != [] && StageRun(c.run, c.failed, maxTrades, w, trace) && |trace[|trace| - 1]| == |c.run|
      ensures forall i :: 0 <= i < |c.run| ==>
                (c.run[i] in sent <==> trace[|trace| - 1][i].Submitted? || trace[|trace| - 1][i].Faulted?)
      ensures forall d :: d in sent ==> d in c.run && w.plans(d) && d.cell !in c.failed && !w.ends(d).Declines?
      ensures forall d :: d in c.run && w.plans(d) && d.cell !in c.failed && !w.ends(d).Declines? && d !in sent ==>
                WasFull(trace, maxTrades) && Wanting(c.run, c.failed, w) > maxTrades
    {
      hide OnlyDue, Cut, Sent, DistinctCells, Remembered, Written, Total, StageRun, IsDue, Behind, Lawful, Finished, Slots, WasFull, Wanting;
      budgetTaken := 0;
      if !cursorLoaded {
        lastClose := store.rows;
        cursorLoaded := true;
      }
      ghost var gate, before := lastClose, store.rows;
      BehindItself(before);
      var due := SelectDue(listed);
      var run := Cut(due, maxCells);
      RunLaw(listed, lastClose, maxCells);
      RunIsWhole(listed, lastClose, maxCells);
      var failed := catchUpFailed + preparationFailed;
      var stages;
      stages, trace := RunCells(run, failed, w);
      SentRan(run, stages, failed, maxTrades, w, trace);
      DueMeans(gate);
      var n, torn := RecordAll(run, failed, fates);
      sent := Sent(run, stages);
      ok := n == |run|;
      c := Cycle(gate, lastClose, before, store.rows, listed, run, sent, failed, n, torn);
      CycleIsLawful(c, maxTrades, maxCells);
    }

    /** The listed cells whose close is past their last recorded one. */
    method SelectDue(listed: seq<Due>) returns (due: seq<Due>)
      ensures due == OnlyDue(listed, lastClose)
    {
      hide IsDue;
      due := [];
      var k := 0;
      while k < |listed|
        invariant 0 <= k <= |listed| && due == OnlyDue(listed[..k], lastClose)
      {
        assert listed[..k + 1][..k] == listed[..k];
        if IsDue(listed[k], lastClose) { due := due + [listed[k]]; }
        k := k + 1;
      }
      assert listed[..k] == listed;
    }

    /** Each run cell's close, in order, into the table and then into the memory, until an
        upsert raises. */
    method RecordAll(run: seq<Due>, failed: set<string>, fates: nat -> Fate) returns (n: nat, torn: bool)
      requires DistinctCells(run) && forall d :: d in run ==> IsDue(d, lastClose)
      modifies this`lastClose, store
      ensures n <= |run| && (torn ==> n < |run| && run[n].cell !in failed)
      ensures lastClose == Remembered(old(lastClose), run, failed, n)
      ensures store.rows == Written(old(store.rows), run, failed, n + if torn then 1 else 0)
      ensures AllLand(run, failed, fates, n)
      ensures n < |run| ==> run[n].cell !in failed && !fates(n).Landed? && torn == fates(n).Torn?
    {
      n, torn := 0, false;
      while n < |run|
        invariant 0 <= n <= |run| && !torn && AllLand(run, failed, fates, n)
        invariant lastClose == Remembered(old(lastClose), run, failed, n)
        invariant store.rows == Written(old(store.rows), run, failed, n)
      {
        var d := run[n];
        NotYetDecided(old(lastClose), run, failed, n);
        assert d in run;
        if d.cell !in failed {
          var close := Newer(lastClose, d.cell, d.close);
          var ok := store.Upsert(d.cell, close, fates(n));
          if !ok { return n, fates(n).Torn?; }
          lastClose := lastClose[d.cell := close];
        }
        n := n + 1;
      }
    }
  }

  lemma DueMeans(last: Cursor)
    ensures forall d: Due :: IsDue(d, last) <==> d.cell !in last || d.close > last[d.cell]
  {}

  lemma BehindItself(rows: Cursor)
    ensures Behind(rows, rows)
  {}

  lemma CycleIsLawful(c: Cycle, maxTrades: int, maxCells: Option<nat>)
    requires Behind(c.gate, c.before) && DistinctCells(c.listed) && c.run == Cut(OnlyDue(c.listed, c.gate), maxCells)
    requires c.decided <= |c.run| && (c.torn ==> c.decided < |c.run| && c.run[c.decided].cell !in c.failed)
    requires c.gateAfter == Remembered(c.gate, c.run, c.failed, c.decided)
    requires c.after == Written(c.before, c.run, c.failed, c.decided + if c.torn then 1 else 0)
    requires |c.sent| <= Slots(maxTrades) && DistinctCells(c.sent)
    requires forall d :: d in c.sent ==> d in c.run && d.cell !in c.failed
    ensures Lawful(c, maxTrades, maxCells) && Behind(c.gateAfter, c.after)
  {
    hide OnlyDue, Cut, Remembered, Written, DistinctCells, Behind;
    RunLaw(c.listed, c.gate, maxCells);
    StaysBehind(c.gate, c.before, c.run, c.failed, c.decided, c.decided + if c.torn then 1 else 0);
  }

  predicate AllLand(run: seq<Due>, failed: set<string>, fates: nat -> Fate, n: nat)
    requires n <= |run|
  {
    forall k: nat :: k < n && run[k].cell !in failed ==> fates(k).Landed?
  }

  lemma FirstTrace(due: seq<Due>, failed: set<string>, maxTrades: int, w: World, stages: seq<Stage>)
    requires |stages| == |due| && forall i :: 0 <= i < |stages| ==> stages[i].Waiting?
    ensures StageRun(due, failed, maxTrades, w, [stages])
  {}

  lemma Weights(from: Stage, to: Stage)
    ensures Slot(from) == (if from.Reserved? || from.Submitted? || from.Faulted? then 1 else 0)
    ensures Slot(to) == (if to.Reserved? || to.Submitted? || to.Faulted? then 1 else 0)
    ensures Work(from) == (if from.Waiting? then 2 else if from.Reserved? then 1 else 0)
    ensures Work(to) == (if to.Waiting? then 2 else if to.Reserved? then 1 else 0)
  {}

  /** Until its turn comes, a cell of the run is remembered as before the cycle. */
  lemma NotYetDecided(last: Cursor, run: seq<Due>, failed: set<string>, n: nat)
    requires n < |run| && DistinctCells(run)
    ensures SameAt(Remembered(last, run, failed, n), last, run[n].cell)
  {
    RememberedLaw(last, run, failed, n);
  }

  /** What was sent, by cell and by what its plan came to. */
  lemma SentRan(run: seq<Due>, stages: seq<Stage>, failed: set<string>, maxTrades: int, w: World, trace: seq<seq<Stage>>)
    requires trace != [] && StageRun(run, failed, maxTrades, w, trace) && trace[|trace| - 1] == stages
    requires DistinctCells(run) && |stages| == |run| && forall i :: 0 <= i < |stages| ==> Finished(stages[i])
    ensures var sent := Sent(run, stages);
            && |sent| <= Slots(maxTrades) && DistinctCells(sent)
            && (forall i :: 0 <= i < |run| ==> (run[i] in sent <==> stages[i].Submitted? || stages[i].Faulted?))
            && (forall d :: d in sent ==> d in run && Wants(d, failed, w) && !w.ends(d).Declines?)
            && (Wanting(run, failed, w) <= maxTrades ==>
                  forall d :: d in run && Wants(d, failed, w) && !w.ends(d).Declines? ==> d in sent)
            && ((exists d :: d in run && Wants(d, failed, w) && !w.ends(d).Declines? && d !in sent) ==> WasFull(trace, maxTrades))
  {
    SentCount(run, stages);
    SentDistinct(run, stages);
    SlotsNeverExceed(run, failed, maxTrades, w, trace, |trace| - 1);
    hide StageRun, StageStep, WasFull, Wanting, Total, Slots, Sent, Wants;
    var sent := Sent(run, stages);
    forall d
      ensures d in sent <==> exists i: nat :: LeftFor(run, stages, d, i)
    {
      SentMembers(run, stages, d);
    }
    forall i | 0 <= i < |run|
      ensures run[i] in sent <==> Left(stages[i])
      ensures Wants(run[i], failed, w) && !w.ends(run[i]).Declines? && run[i] !in sent ==> WasFull(trace, maxTrades) && Wanting(run, failed, w) > maxTrades
      ensures run[i] in sent ==> Wants(run[i], failed, w) && !w.ends(run[i]).Declines?
    {
      if Left(stages[i]) { assert LeftFor(run, stages, run[i], i); }
      if run[i] in sent { var j: nat :| LeftFor(run, stages, run[i], j); assert j == i; }
      HowItEnds(run, failed, maxTrades, w, trace, i);
      if Wanting(run, failed, w) <= maxTrades { NobodyStarves(run, failed, maxTrades, w, trace, |trace| - 1, i); }
    }
    forall d | d in sent
      ensures d in run
    {
      var j: nat :| LeftFor(run, stages, d, j);
    }
  }

  // ---- whole histories ----------------------------------------------------

  /** Cycles on one store, the next one in the same process or in a new one that loads
      the table. */
  predicate History(cs: seq<Cycle>, maxTrades: int, maxCells: Option<nat>) {
    && (forall i :: 0 <= i < |cs| ==> Lawful(cs[i], maxTrades, maxCells))
    && (forall i :: 0 < i < |cs| ==> Follows(cs[i - 1], cs[i]))
  }

  predicate Follows(c: Cycle, next: Cycle) { next.before == c.after && (next.gate == c.gateAfter || next.gate == c.after) }

  lemma {:induction false} CursorsNeverGoBack(cs: seq<Cycle>, maxTrades: int, maxCells: Option<nat>, i: nat, j: nat)
    requires History(cs, maxTrades, maxCells) && i < j < |cs|
    ensures Behind(cs[i].after, cs[j].before) && Behind(cs[i].gateAfter, cs[j].gate)
    decreases j
  {
    hide Lawful;
    assert Follows(cs[j - 1], cs[j]);
    CycleEffect(cs[j - 1], maxTrades, maxCells);
    if i < j - 1 {
      CursorsNeverGoBack(cs, maxTrades, maxCells, i, j - 1);
      BehindChain(cs[i].after, cs[j - 1].before, cs[j - 1].after);
      BehindChain(cs[i].gateAfter, cs[j - 1].gate, cs[j - 1].gateAfter);
    }
    BehindChain(cs[i].gateAfter, cs[j - 1].gateAfter, cs[j - 1].after);
  }

  lemma BehindChain(a: Cursor, b: Cursor, c: Cursor)
    ensures Behind(a, a) && (Behind(a, b) && Behind(b, c) ==> Behind(a, c))
  {}

  /** The cycle's decision on this cell is in the loop's memory. */
  predicate Remembers(c: Cycle, d: Due) { exists k :: 0 <= k < c.decided && k < |c.run| && c.run[k] == d }

  /** A decision once remembered holds over all later cycles and restarts: that trade does
      not leave again. A cycle none of whose upserts raised remembers all it sent. */
  lemma OneTradePerClose(cs: seq<Cycle>, maxTrades: int, maxCells: Option<nat>, i: nat, j: nat, d: Due)
    requires History(cs, maxTrades, maxCells) && i < j < |cs| && d in cs[i].sent
    ensures cs[i].decided == |cs[i].run| ==> Remembers(cs[i], d)
    ensures Remembers(cs[i], d) ==> d !in cs[j].sent
  {
    SentWasRun(cs[i], maxTrades, maxCells, d);
    hide Lawful, IsDue;
    if Remembers(cs[i], d) {
      CycleEffect(cs[i], maxTrades, maxCells);
      CursorsNeverGoBack(cs, maxTrades, maxCells, i, j);
      StillRecorded(cs[i].gateAfter, cs[j].gate, d);
      if d in cs[j].sent { SentWasRun(cs[j], maxTrades, maxCells, d); }
    }
  }

  /** A decision that only reached the table holds from the next restart on. */
  lemma RestartRemembers(cs: seq<Cycle>, maxTrades: int, maxCells: Option<nat>, i: nat, m: nat, j: nat, d: Due)
    requires History(cs, maxTrades, maxCells) && i < m <= j < |cs| && cs[m].gate == cs[m - 1].after
    requires cs[i].torn && cs[i].run[cs[i].decided] == d
    ensures d !in cs[j].sent
  {
    hide Lawful, IsDue, Behind, History;
    Members(cs, maxTrades, maxCells);
    TornIsWritten(cs[i], maxTrades, maxCells);
    CursorsNeverGoBack(cs, maxTrades, maxCells, i, m);
    TableToGate(cs, maxTrades, maxCells, m, j);
    BehindChain(cs[i].after, cs[m].before, cs[j].gate);
    StillRecorded(cs[i].after, cs[j].gate, d);
    if d in cs[j].sent { SentWasRun(cs[j], maxTrades, maxCells, d); }
  }

  lemma Members(cs: seq<Cycle>, maxTrades: int, maxCells: Option<nat>)
    requires History(cs, maxTrades, maxCells)
    ensures forall i :: 0 <= i < |cs| ==> Lawful(cs[i], maxTrades, maxCells)
    ensures forall i :: 0 < i < |cs| ==> Follows(cs[i - 1], cs[i])
  {
    hide Lawful, Follows;
  }

  /** What the table held at a restart no later cycle forgets. */
  lemma TableToGate(cs: seq<Cycle>, maxTrades: int, maxCells: Option<nat>, m: nat, j: nat)
    requires History(cs, maxTrades, maxCells) && 0 < m <= j < |cs| && cs[m].gate == cs[m - 1].after
    ensures Behind(cs[m].before, cs[j].gate)
  {
    hide Lawful, Behind, History;
    Members(cs, maxTrades, maxCells);
    BehindChain(cs[m].gate, cs[m].gate, cs[m].gate);
    assert Follows(cs[m - 1], cs[m]);
    if m < j {
      CycleEffect(cs[m], maxTrades, maxCells);
      CursorsNeverGoBack(cs, maxTrades, maxCells, m, j);
      BehindChain(cs[m].gate, cs[m].gateAfter, cs[j].gate);
    }
  }

  lemma TornIsWritten(c: Cycle, maxTrades: int, maxCells: Option<nat>)
    requires Lawful(c, maxTrades, maxCells) && c.torn
    ensures var d := c.run[c.decided]; d.cell in c.after && c.after[d.cell] >= d.close
  {
    WrittenLaw(c.before, c.run, c.failed, c.decided + 1);
  }

  lemma StillRecorded(a: Cursor, b: Cursor, d: Due)
    requires Behind(a, b) && d.cell in a && a[d.cell] >= d.close
    ensures !IsDue(d, b)
  {}

  lemma SentWasRun(c: Cycle, maxTrades: int, maxCells: Option<nat>, d: Due)
    requires Lawful(c, maxTrades, maxCells) && d in c.sent
    ensures d in c.run && d.cell !in c.failed && IsDue(d, c.gate)
    ensures c.decided == |c.run| ==> Remembers(c, d)
  {
    RunLaw(c.listed, c.gate, maxCells);
    if c.decided == |c.run| {
      var k :| 0 <= k < |c.run| && c.run[k] == d;
    }
  }

  /** A trade can leave a second time for the same cell and close, in some history that goes
      on from this cycle, if and only if an upsert raised before the cell's decision was
      remembered. */
  lemma WhenTradedTwice(c: Cycle, maxTrades: int, maxCells: Option<nat>, d: Due)
    requires Lawful(c, maxTrades, maxCells) && d in c.sent
    ensures !Remembers(c, d) <==>
              exists cs: seq<Cycle>, j: nat :: History(cs, maxTrades, maxCells) && 0 < j < |cs| && cs[0] == c && d in cs[j].sent
  {
    hide Lawful, Remembers, History;
    if !Remembers(c, d) {
      AgainIsLawful(c, maxTrades, maxCells, d);
      var cs := [c, Again(c, d)];
      assert d in Again(c, d).sent;
      TwoCycles(c, Again(c, d), maxTrades, maxCells);
      hide Again;
      assert History(cs, maxTrades, maxCells) && 0 < 1 < |cs| && cs[0] == c && d in cs[1].sent;
    } else if cs: seq<Cycle>, j: nat :| History(cs, maxTrades, maxCells) && 0 < j < |cs| && cs[0] == c && d in cs[j].sent {
      OneTradePerClose(cs, maxTrades, maxCells, 0, j, d);
    }
  }

  lemma TwoCycles(c: Cycle, next: Cycle, maxTrades: int, maxCells: Option<nat>)
    requires Lawful(c, maxTrades, maxCells) && Lawful(next, maxTrades, maxCells) && Follows(c, next)
    ensures History([c, next], maxTrades, maxCells)
  {
    hide Lawful;
  }

  /** The next cycle of the same process, with this one cell listed for the same close. */
  function Again(c: Cycle, d: Due): (next: Cycle) {
    Cycle(c.gateAfter, c.gateAfter[d.cell := d.close], c.after, Upserted(c.after, d.cell, d.close), [d], [d], [d], {}, 1, false)
  }

  lemma AgainIsLawful(c: Cycle, maxTrades: int, maxCells: Option<nat>, d: Due)
    requires Lawful(c, maxTrades, maxCells) && d in c.sent && !Remembers(c, d)
    ensures Lawful(Again(c, d), maxTrades, maxCells)
  {
    CycleEffect(c, maxTrades, maxCells);
    SentWasRun(c, maxTrades, maxCells, d);
    RunLaw(c.listed, c.gate, maxCells);
    hide OnlyDue;
    assert !DecidedIn(c.run, c.failed, c.decided, d.cell) by {
      var m :| 0 <= m < |c.run| && c.run[m] == d;
    }
    assert SameAt(c.gateAfter, c.gate, d.cell);
    OneDue(d, c.gateAfter);
    assert |c.sent| >= 1 && |c.run| >= 1;
    OneStep(c.gateAfter, c.after, d);
  }

  lemma OneDue(d: Due, last: Cursor)
    requires IsDue(d, last)
    ensures OnlyDue([d], last) == [d]
  {
    assert [d][..0] == [];
  }

  lemma OneStep(last: Cursor, rows: Cursor, d: Due)
    ensures Remembered(last, [d], {}, 1) == last[d.cell := d.close]
    ensures Written(rows, [d], {}, 1) == Upserted(rows, d.cell, d.close)
  {}
}
