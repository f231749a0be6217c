/** The single ledger writer: a queue applied one record at a time, the block that a
    failed reconciliation puts on new entries, and the checks that read the ledger. */
module LedgerWriter {
  import opened Wrappers
  import opened LedgerChain
  import opened Positions

  datatype LedgerError =
    | WriterClosed | EventTypeRequired | BlockedPendingReconcile | StoreFailed | FillSideUnmapped
    | LedgerBlocked | NotReconciled

  /** Only the audit of a failed reconciliation passes while it blocks the ledger. */
  predicate AllowedWhileBlocked(e: Event) { e.Correction? || e.Resolved? }

  function Admission(closed: bool, blocked: bool, e: Event): (r: Result<(), LedgerError>) {
    if closed then Err(WriterClosed)
    else if e == Other("") then Err(EventTypeRequired)
    else if blocked && !AllowedWhileBlocked(e) then Err(BlockedPendingReconcile)
    else Ok(())
  }

  /** Rows that carry an intent's id, in ledger order. */
  predicate HasReconciled(rows: seq<Row>, intent: string) {
    exists i :: 0 <= i < |rows| && rows[i].raw.record.intentId == Some(intent) && rows[i].raw.record.result == Some("RECONCILED")
  }

  predicate HasFill(rows: seq<Row>, fillId: string) {
    exists i :: 0 <= i < |rows| && rows[i].raw.record.fillId == Some(fillId)
  }

  predicate FillsOnce(rows: seq<Row>) {
    forall i, j :: 0 <= i < j < |rows| && rows[i].raw.record.fillId.Some? ==> rows[i].raw.record.fillId != rows[j].raw.record.fillId
  }

  /** Rows that only audit a reconciliation. */
  predicate AuditOnly(rows: seq<Row>, from: nat) {
    forall i :: from <= i < |rows| ==> AllowedWhileBlocked(rows[i].raw.record.event)
  }

  lemma {:induction false} AuditMovesNothing(before: seq<Row>, rows: seq<Row>)
    requires before <= rows && AuditOnly(rows, |before|)
    ensures Trades(rows) == Trades(before)
    decreases |rows|
  {
    if |before| == |rows| {
      assert before == rows;
    } else {
      AuditMovesNothing(before, rows[..|rows| - 1]);
    }
  }

  predicate AllLand(faults: nat -> Fault, n: nat) { forall k: nat :: k < n ==> faults(k) == Landed }

  class Writer {
    const hash: Hash
    var rows: seq<Row>
    var head: Option<string>
    var blocked: bool
    var closed: bool
    var queue: seq<Pending>

    /** Opening a table recovers the head from its last row. */
    constructor (hash: Hash, rows: seq<Row>)
      ensures this.hash == hash && this.rows == rows && queue == [] && !blocked && !closed
      ensures RowsLinked(hash, rows) ==> WellLinked(hash, Chained())
    {
      this.hash := hash;
      this.rows := rows;
      head := LastHash(rows);
      blocked, closed, queue := false, false, [];
    }

    function Chained(): (c: Chain)
      reads this
    {
      Chain(rows, head)
    }

    method Enqueue(p: Pending) returns (r: Result<(), LedgerError>)
      modifies this`queue
      ensures r.Ok? <==> !closed && p.record.event != Other("") && (blocked ==> p.record.event.Correction? || p.record.event.Resolved?)
      ensures r == Admission(closed, blocked, p.record.event)
      ensures queue == if r.Ok? then old(queue) + [p] else old(queue)
    {
      if closed { return Err(WriterClosed); }
      if p.record.event == Other("") { return Err(EventTypeRequired); }
      if blocked && !AllowedWhileBlocked(p.record.event) { return Err(BlockedPendingReconcile); }
      queue := queue + [p];
      return Ok(());
    }

    /** The writer task's one step: link, hash, insert, then move the head. */
    method ApplyNext(fault: Fault) returns (r: Result<Row, LedgerError>)
      requires queue != []
      modifies this`queue, this`rows, this`head
      ensures queue == old(queue)[1..]
      ensures Chained() == Applied(hash, old(Chained()), old(queue)[0], fault)
      ensures r == if fault.Landed? then Ok(Linked(hash, old(queue)[0], old(head))) else Err(StoreFailed)
    {
      var entry := queue[0];
      queue := queue[1..];
      var parents := if head.Some? then entry.declared + [head.value] else entry.declared;
      var raw := Raw(entry.record, parents);
      var row := Row(raw, hash(raw), parents, entry.price, entry.quantity);
      if fault.Lost? { return Err(StoreFailed); }
      rows := rows + [row];
      if fault.Torn? { return Err(StoreFailed); }
      head := Some(row.payloadHash);
      return Ok(row);
    }

    /** One append with nothing else in flight. */
    method Append(p: Pending, fault: Fault) returns (r: Result<Row, LedgerError>)
      requires queue == []
      modifies this`queue, this`rows, this`head
      ensures queue == []
      ensures var admitted := Admission(closed, blocked, p.record.event);
              if admitted.Err? then r == Err(admitted.error) && Chained() == old(Chained())
              else
                && Chained() == Applied(hash, old(Chained()), p, fault)
                && r == if fault.Landed? then Ok(Linked(hash, p, old(head))) else Err(StoreFailed)
    {
      var admitted := Enqueue(p);
      if admitted.Err? { return Err(admitted.error); }
      r := ApplyNext(fault);
    }

    /** Fills are idempotent under their id, one call at a time. */
    method AppendFill(p: Pending, fault: Fault) returns (r: Result<Row, LedgerError>)
      requires queue == [] && p.record.event.Fill? && p.record.fillId.Some?
      modifies this`queue, this`rows, this`head
      ensures queue == [] && old(rows) <= rows
      ensures old(HasFill(rows, p.record.fillId.value)) ==>
                rows == old(rows) && head == old(head) && r.Ok? && r.value in rows && r.value.raw.record.fillId == p.record.fillId
      ensures old(FillsOnce(rows)) ==> FillsOnce(rows)
      ensures r.Ok? ==> HasFill(rows, p.record.fillId.value)
    {
      var i := 0;
      while i < |rows|
        invariant 0 <= i <= |rows|
        invariant forall k :: 0 <= k < i ==> rows[k].raw.record.fillId != p.record.fillId
      {
        if rows[i].raw.record.fillId == p.record.fillId { return Ok(rows[i]); }
        i := i + 1;
      }
      r := Append(p, fault);
      if r.Ok? { assert rows[|rows| - 1].raw.record.fillId == p.record.fillId; }
    }

    /** The ledger's positions against the exchange's. Agreement lifts the block. A divergence
        is logged, and blocks new entries if and only if every one of its corrections was
        written. Nothing is repaired. */
    method Reconcile(report: Report, newId: nat -> string, faults: nat -> Fault) returns (r: Result<bool, LedgerError>)
      requires queue == [] && !closed
      modifies this`queue, this`rows, this`head, this`blocked
      ensures queue == [] && old(rows) <= rows && AuditOnly(rows, |old(rows)|) && Trades(rows) == Trades(old(rows))
      ensures !Mapped(Trades(old(rows))) ==> r == Err(FillSideUnmapped) && rows == old(rows) && blocked == old(blocked)
      ensures Mapped(Trades(old(rows))) ==>
                var agree, n := LedgerAgrees(BookOf(old(rows)), report), DeltaCount(BookOf(old(rows)), report);
                var writes := if agree && old(blocked) then 1 else n;
                && (agree <==> n == 0)
                && (r.Ok? <==> AllLand(faults, writes))
                && (r.Ok? ==> r.value == agree && |rows| == |old(rows)| + writes)
                && (blocked <==> !agree && (old(blocked) || AllLand(faults, n)))
      ensures r.Ok? && old(WellLinked(hash, Chained())) ==> WellLinked(hash, Chained())
    {
      hide LedgerAgrees, DeltaCount, IsDelta, Trades, BookOf, WellLinked, Mapped;
      var book := PositionsFromLedger(rows);
      if book.Err? {
        return Err(FillSideUnmapped);
      }
      var deltas := FindDeltas(book.value, report);
      var i := 0;
      while i < |deltas|
        invariant 0 <= i <= |deltas| && |rows| == |old(rows)| + i && queue == [] && blocked == old(blocked)
        invariant AllLand(faults, i)
        invariant old(rows) <= rows && AuditOnly(rows, |old(rows)|)
        invariant old(WellLinked(hash, Chained())) ==> WellLinked(hash, Chained())
      {
        var supersedes := if head.Some? then head.value else "GENESIS";
        var record := Record(newId(|rows|), Correction, None, None, Some("SUPERSEDED"));
        var row := AppendAudit(Pending(record, [supersedes], None, None), faults(i));
        if row.Err? {
          AuditMovesNothing(old(rows), rows);
          return Err(row.error);
        }
        i := i + 1;
      }
      if deltas != [] {
        blocked := true;
      } else if blocked {
        blocked := false;
        var record := Record(newId(|rows|), Resolved, None, None, Some("RECONCILED"));
        var row := AppendAudit(Pending(record, [], None, None), faults(0));
        if row.Err? {
          AuditMovesNothing(old(rows), rows);
          return Err(row.error);
        }
      }
      AuditMovesNothing(old(rows), rows);
      r := Ok(deltas == []);
    }

    method AppendAudit(p: Pending, fault: Fault) returns (r: Result<Row, LedgerError>)
      requires queue == [] && !closed && AllowedWhileBlocked(p.record.event)
      modifies this`queue, this`rows, this`head
      ensures queue == [] && (rows == old(rows) || (|rows| == |old(rows)| + 1 && old(rows) <= rows && rows[|old(rows)|].raw.record == p.record))
      ensures r.Ok? <==> fault == Landed
      ensures r.Ok? ==> |rows| == |old(rows)| + 1
      ensures r.Ok? && old(WellLinked(hash, Chained())) ==> WellLinked(hash, Chained())
    {
      ghost var before := Chained();
      r := Append(p, fault);
      if r.Ok? && WellLinked(hash, before) { AppliedKeepsLinks(hash, before, p, fault); }
    }

    /** A decision may advance only on an unblocked ledger that records the intent as
        reconciled. */
    method RequireReconciled(intent: string) returns (r: Result<(), LedgerError>)
      ensures r == Ok(()) <==> !blocked && HasReconciled(rows, intent)
      ensures r.Err? ==> r.error == if blocked then LedgerBlocked else NotReconciled
    {
      if blocked { return Err(LedgerBlocked); }
      var i := 0;
      while i < |rows|
        invariant 0 <= i <= |rows|
        invariant forall k :: 0 <= k < i ==>
          !(rows[k].raw.record.intentId == Some(intent) && rows[k].raw.record.result == Some("RECONCILED"))
      {
        if rows[i].raw.record.intentId == Some(intent) && rows[i].raw.record.result == Some("RECONCILED") { return Ok(()); }
        i := i + 1;
      }
      return Err(NotReconciled);
    }
  }
}
