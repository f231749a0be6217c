/** The hash-chained ledger: what one append links, what verification reports, and
    which changes to the stored rows it notices. The hash of a record is any
    injective function of the record and its parents. */
module LedgerChain {
  import opened Wrappers
  import opened OrderStates

  datatype Event =
    | Transition(from: State, trigger: Trigger, to: State)
    | Fill(symbol: string, side: Side)
    | Correction
    | Resolved
    | Other(name: string)

  datatype Record = Record(
    eventId: string, event: Event, intentId: Option<string>, fillId: Option<string>, result: Option<string>)

  datatype Side = BUY_OPEN | SELL_OPEN | SELL_CLOSE | BUY_CLOSE | Unmapped(text: string)

  /** What is hashed: the record with every parent link. */
  datatype Raw = Raw(record: Record, parents: seq<string>)

  /** A queued append: the links are those the caller declared. */
  datatype Pending = Pending(record: Record, declared: seq<string>, price: Option<real>, quantity: Option<real>)

  datatype Row = Row(
    raw: Raw, payloadHash: string, parentIds: seq<string>, price: Option<real>, quantity: Option<real>)

  type Hash = Raw -> string

  ghost predicate Injective(h: Hash) { forall a, b :: h(a) == h(b) ==> a == b }

  /** How the two insertions of one append went: both, neither, or the row only. */
  datatype Fault = Landed | Lost | Torn

  datatype Chain = Chain(rows: seq<Row>, head: Option<string>)

  function Links(declared: seq<string>, head: Option<string>): (parents: seq<string>) {
    if head.Some? then declared + [head.value] else declared
  }

  function Linked(h: Hash, p: Pending, head: Option<string>): (row: Row) {
    var raw := Raw(p.record, Links(p.declared, head));
    Row(raw, h(raw), raw.parents, p.price, p.quantity)
  }

  /** One append as the writer applies it. A torn one leaves its row but not its head. */
  function Applied(h: Hash, c: Chain, p: Pending, fault: Fault): (r: Chain) {
    var row := Linked(h, p, c.head);
    match fault
    case Landed => Chain(c.rows + [row], Some(row.payloadHash))
    case Lost => c
    case Torn => Chain(c.rows + [row], c.head)
  }

  function AppliedAll(h: Hash, c: Chain, work: seq<(Pending, Fault)>): (r: Chain)
    decreases work
  {
    if work == [] then c else AppliedAll(h, Applied(h, c, work[0].0, work[0].1), work[1..])
  }

  // ---- verification -------------------------------------------------------

  datatype Kind = PayloadHashMismatch | ParentLinkBroken

  datatype Break = Break(index: nat, kind: Kind)

  predicate Broken(h: Hash, rows: seq<Row>, b: Break)
    requires b.index < |rows|
  {
    match b.kind
    case PayloadHashMismatch => h(rows[b.index].raw) != rows[b.index].payloadHash
    case ParentLinkBroken => b.index > 0 && rows[b.index - 1].payloadHash !in rows[b.index].parentIds
  }

  function BreaksAt(h: Hash, rows: seq<Row>, i: nat): (r: seq<Break>)
    requires i < |rows|
  {
    (if Broken(h, rows, Break(i, PayloadHashMismatch)) then [Break(i, PayloadHashMismatch)] else [])
    + (if Broken(h, rows, Break(i, ParentLinkBroken)) then [Break(i, ParentLinkBroken)] else [])
  }

  /** Every break from a position on, in order. */
  function Breaks(h: Hash, rows: seq<Row>, from: nat): (r: seq<Break>)
    requires from <= |rows|
    decreases |rows| - from
  {
    if from == |rows| then [] else BreaksAt(h, rows, from) + Breaks(h, rows, from + 1)
  }

  predicate Intact(h: Hash, rows: seq<Row>) { Breaks(h, rows, 0) == [] }

  method VerifyChain(h: Hash, rows: seq<Row>) returns (breaks: seq<Break>)
    ensures breaks == Breaks(h, rows, 0)
  {
    hide BreaksAt;
    breaks := [];
    var head: Option<string> := None;
    var index := 0;
    while index < |rows|
      invariant 0 <= index <= |rows|
      invariant head == if index == 0 then None else Some(rows[index - 1].payloadHash)
      invariant breaks + Breaks(h, rows, index) == Breaks(h, rows, 0)
    {
      var entry := rows[index];
      ghost var before := breaks;
      if h(entry.raw) != entry.payloadHash { breaks := breaks + [Break(index, PayloadHashMismatch)]; }
      if head.Some? && head.value !in entry.parentIds { breaks := breaks + [Break(index, ParentLinkBroken)]; }
      BreaksAtStep(h, rows, index);
      assert breaks == before + BreaksAt(h, rows, index);
      Regroup(before, BreaksAt(h, rows, index), Breaks(h, rows, index + 1));
      head := Some(entry.payloadHash);
      index := index + 1;
    }
  }

  lemma Regroup(a: seq<Break>, b: seq<Break>, c: seq<Break>)
    ensures (a + b) + c == a + (b + c)
  {}

  lemma BreaksAtStep(h: Hash, rows: seq<Row>, i: nat)
    requires i < |rows|
    ensures BreaksAt(h, rows, i)
         == (if h(rows[i].raw) != rows[i].payloadHash then [Break(i, PayloadHashMismatch)] else [])
            + (if i > 0 && rows[i - 1].payloadHash !in rows[i].parentIds then [Break(i, ParentLinkBroken)] else [])
  {}

  /** The verdict lists exactly the broken places. */
  lemma {:induction false} BreaksAreBroken(h: Hash, rows: seq<Row>, from: nat, b: Break)
    requires from <= |rows|
    ensures b in Breaks(h, rows, from) <==> from <= b.index < |rows| && Broken(h, rows, b)
    decreases |rows| - from
  {
    hide Broken, BreaksAt;
    if from < |rows| {
      InBreaksAt(h, rows, from, b);
      BreaksAreBroken(h, rows, from + 1, b);
    }
  }

  lemma InBreaksAt(h: Hash, rows: seq<Row>, i: nat, b: Break)
    requires i < |rows|
    ensures b in BreaksAt(h, rows, i) <==> b.index == i && Broken(h, rows, b)
  {
    hide Broken;
    var x, y := Break(i, PayloadHashMismatch), Break(i, ParentLinkBroken);
    var p := if Broken(h, rows, x) then [x] else [];
    var q := if Broken(h, rows, y) then [y] else [];
    assert BreaksAt(h, rows, i) == p + q;
    assert b in p + q <==> b in p || b in q;
    assert b == Break(b.index, b.kind) && (b.kind == PayloadHashMismatch || b.kind == ParentLinkBroken);
  }

  lemma {:induction false} NoBreaks(h: Hash, rows: seq<Row>, from: nat)
    requires from <= |rows|
    requires forall i, k :: from <= i < |rows| ==> !Broken(h, rows, Break(i, k))
    ensures Breaks(h, rows, from) == []
    decreases |rows| - from
  {
    hide Broken;
    if from < |rows| {
      assert BreaksAt(h, rows, from) == [];
      NoBreaks(h, rows, from + 1);
    }
  }

  lemma {:induction false} OneBreak(h: Hash, rows: seq<Row>, from: nat, b: Break)
    requires from <= b.index < |rows| && Broken(h, rows, b)
    requires forall i, k :: from <= i < |rows| && Break(i, k) != b ==> !Broken(h, rows, Break(i, k))
    ensures Breaks(h, rows, from) == [b]
    decreases |rows| - from
  {
    hide Broken, BreaksAt;
    OneBreakHere(h, rows, from, b);
    if from < b.index {
      OneBreak(h, rows, from + 1, b);
    } else {
      NoBreaks(h, rows, from + 1);
    }
  }

  lemma OneBreakHere(h: Hash, rows: seq<Row>, i: nat, b: Break)
    requires i < |rows| && b.index < |rows| && Broken(h, rows, b)
    requires forall k :: Break(i, k) != b ==> !Broken(h, rows, Break(i, k))
    ensures BreaksAt(h, rows, i) == if i == b.index then [b] else []
  {
    hide Broken;
    var other := if b.kind == ParentLinkBroken then PayloadHashMismatch else ParentLinkBroken;
    assert Break(i, other) != b;
    assert b == Break(b.index, b.kind);
  }

  lemma NothingBroken(h: Hash, rows: seq<Row>, i: nat, k: Kind)
    requires Intact(h, rows) && i < |rows|
    ensures !Broken(h, rows, Break(i, k))
  {
    BreaksAreBroken(h, rows, 0, Break(i, k));
  }

  // ---- whole runs of appends ----------------------------------------------

  /** A chain only the writer has written: each row hashes itself and its last link is
      the row before. */
  predicate RowsLinked(h: Hash, rows: seq<Row>) {
    && (forall i :: 0 <= i < |rows| ==> rows[i].payloadHash == h(rows[i].raw) && rows[i].parentIds == rows[i].raw.parents)
    && (forall i :: 0 < i < |rows| ==>
          rows[i].parentIds != [] && rows[i].parentIds[|rows[i].parentIds| - 1] == rows[i - 1].payloadHash)
  }

  function LastHash(rows: seq<Row>): (head: Option<string>) {
    if rows == [] then None else Some(rows[|rows| - 1].payloadHash)
  }

  /** The head the writer holds, or recovers when it opens the table again. */
  predicate WellLinked(h: Hash, c: Chain) { RowsLinked(h, c.rows) && c.head == LastHash(c.rows) }

  function Records(rows: seq<Row>): (r: seq<Record>) { seq(|rows|, i requires 0 <= i < |rows| => rows[i].raw.record) }

  /** The records of the appends that were not lost, in the order they were applied. */
  function Kept(work: seq<(Pending, Fault)>): (r: seq<Record>) {
    if work == [] then []
    else (if work[0].1.Lost? then [] else [work[0].0.record]) + Kept(work[1..])
  }

  predicate NoneTorn(work: seq<(Pending, Fault)>) { forall i :: 0 <= i < |work| ==> !work[i].1.Torn? }

  lemma AppliedKeepsLinks(h: Hash, c: Chain, p: Pending, fault: Fault)
    requires WellLinked(h, c) && !fault.Torn?
    ensures WellLinked(h, Applied(h, c, p, fault))
  {
    if fault.Landed? {
      var row := Linked(h, p, c.head);
      var rows := c.rows + [row];
      assert c.head.Some? ==> row.parentIds[|row.parentIds| - 1] == c.head.value;
      forall i | 0 < i < |rows|
        ensures rows[i].parentIds != [] && rows[i].parentIds[|rows[i].parentIds| - 1] == rows[i - 1].payloadHash
      {
        if i < |c.rows| { assert rows[i] == c.rows[i]; }
      }
    }
  }

  /** Whatever order appends are applied in and whichever of them are lost, every
      applied one appears once and in that order, after what was there before; and if
      none is torn the chain stays linked. */
  lemma {:induction false} EveryAppendOnce(h: Hash, c: Chain, work: seq<(Pending, Fault)>)
    requires WellLinked(h, c)
    ensures Records(AppliedAll(h, c, work).rows) == Records(c.rows) + Kept(work)
    ensures NoneTorn(work) ==> WellLinked(h, AppliedAll(h, c, work))
    decreases work
  {
    RecordsOfRun(h, c, work);
    if NoneTorn(work) { LinksOfRun(h, c, work); }
  }

  lemma {:induction false} RecordsOfRun(h: Hash, c: Chain, work: seq<(Pending, Fault)>)
    ensures Records(AppliedAll(h, c, work).rows) == Records(c.rows) + Kept(work)
    decreases work
  {
    if work != [] {
      var c' := Applied(h, c, work[0].0, work[0].1);
      RecordsOfRun(h, c', work[1..]);
      if !work[0].1.Lost? {
        assert Records(c'.rows) == Records(c.rows) + [work[0].0.record];
      }
    }
  }

  lemma {:induction false} LinksOfRun(h: Hash, c: Chain, work: seq<(Pending, Fault)>)
    requires WellLinked(h, c) && NoneTorn(work)
    ensures WellLinked(h, AppliedAll(h, c, work))
    decreases work
  {
    hide WellLinked;
    if work != [] {
      AppliedKeepsLinks(h, c, work[0].0, work[0].1);
      LinksOfRun(h, Applied(h, c, work[0].0, work[0].1), work[1..]);
    }
  }

  lemma LinkedIsIntact(h: Hash, rows: seq<Row>)
    requires RowsLinked(h, rows)
    ensures Intact(h, rows)
  {
    forall i, k | 0 <= i < |rows|
      ensures !Broken(h, rows, Break(i, k))
    {
      if i > 0 { assert rows[i].parentIds[|rows[i].parentIds| - 1] == rows[i - 1].payloadHash; }
    }
    NoBreaks(h, rows, 0);
  }

  /** Each append that was not lost names the row it stands behind: among its declared
      links, or as the head it was given. */
  predicate Joined(h: Hash, c: Chain, work: seq<(Pending, Fault)>)
    decreases work
  {
    work != [] ==>
      && (work[0].1.Lost? || c.rows == [] || c.rows[|c.rows| - 1].payloadHash in Links(work[0].0.declared, c.head))
      && Joined(h, Applied(h, c, work[0].0, work[0].1), work[1..])
  }

  /** Over any run, whatever is lost or torn in it, the rows verify intact if and only if
      the appends are joined. */
  lemma {:induction false} WhenRunIsIntact(h: Hash, c: Chain, work: seq<(Pending, Fault)>)
    requires Intact(h, c.rows)
    ensures Intact(h, AppliedAll(h, c, work).rows) <==> Joined(h, c, work)
    decreases work
  {
    hide Intact;
    if work != [] {
      var (p, fault) := work[0];
      var c' := Applied(h, c, p, fault);
      if !fault.Lost? { OneMoreRow(h, c.rows, Linked(h, p, c.head)); }
      if Intact(h, c'.rows) {
        WhenRunIsIntact(h, c', work[1..]);
      } else {
        RunExtends(h, c', work[1..]);
        if Intact(h, AppliedAll(h, c', work[1..]).rows) { PrefixIsIntact(h, c'.rows, AppliedAll(h, c', work[1..]).rows); }
      }
    }
  }

  lemma {:induction false} RunExtends(h: Hash, c: Chain, work: seq<(Pending, Fault)>)
    ensures c.rows <= AppliedAll(h, c, work).rows
    decreases work
  {
    if work != [] { RunExtends(h, Applied(h, c, work[0].0, work[0].1), work[1..]); }
  }

  lemma PrefixIsIntact(h: Hash, rows: seq<Row>, more: seq<Row>)
    requires rows <= more && Intact(h, more)
    ensures Intact(h, rows)
  {
    forall i, k | 0 <= i < |rows|
      ensures !Broken(h, rows, Break(i, k))
    {
      NothingBroken(h, more, i, k);
    }
    NoBreaks(h, rows, 0);
  }

  /** A run without a torn append is joined. */
  lemma {:induction false} NoneTornIsJoined(h: Hash, c: Chain, work: seq<(Pending, Fault)>)
    requires WellLinked(h, c) && NoneTorn(work)
    ensures Joined(h, c, work) && Intact(h, AppliedAll(h, c, work).rows)
    decreases work
  {
    LinkedIsIntact(h, c.rows);
    WhenRunIsIntact(h, c, work);
    if work != [] {
      AppliedKeepsLinks(h, c, work[0].0, work[0].1);
      NoneTornIsJoined(h, Applied(h, c, work[0].0, work[0].1), work[1..]);
    }
  }

  /** No event comes twice. */
  predicate Fresh(rows: seq<Row>, work: seq<(Pending, Fault)>) {
    && (forall i, j :: 0 <= i < |rows| && 0 <= j < |work| ==> rows[i].raw.record.eventId != work[j].0.record.eventId)
    && (forall i, j :: 0 <= i < j < |work| ==> work[i].0.record.eventId != work[j].0.record.eventId)
  }

  /** Nothing but lost appends stands behind a torn one. */
  predicate TearsComeLast(work: seq<(Pending, Fault)>) {
    forall i, j :: 0 <= i < j < |work| && work[i].1.Torn? ==> work[j].1.Lost?
  }

  /** For appends of distinct events that declare no links, the run verifies intact exactly
      when nothing was written behind a torn append. */
  lemma TearsMustComeLast(h: Hash, c: Chain, work: seq<(Pending, Fault)>)
    requires Injective(h) && WellLinked(h, c) && Fresh(c.rows, work)
    requires forall i :: 0 <= i < |work| ==> work[i].0.declared == []
    ensures Intact(h, AppliedAll(h, c, work).rows) <==> TearsComeLast(work)
  {
    LinkedIsIntact(h, c.rows);
    WhenRunIsIntact(h, c, work);
    JoinedIfTearsLast(h, c, work);
  }

  lemma {:induction false} JoinedIfTearsLast(h: Hash, c: Chain, work: seq<(Pending, Fault)>)
    requires Injective(h) && WellLinked(h, c) && Fresh(c.rows, work)
    requires forall i :: 0 <= i < |work| ==> work[i].0.declared == []
    ensures Joined(h, c, work) <==> TearsComeLast(work)
    decreases work
  {
    hide Injective, Links, Linked;
    if work != [] {
      var (p, fault) := work[0];
      var c' := Applied(h, c, p, fault);
      TearsStep(work);
      HeadIsNamed(h, c, p);
      FreshStep(h, c, work);
      if fault.Torn? {
        TornStandsApart(h, c, p);
        hide TearsComeLast, Fresh, WellLinked;
        AfterTear(h, c', work[1..]);
        LostTearsLast(work[1..]);
      } else {
        AppliedKeepsLinks(h, c, p, fault);
        hide TearsComeLast, Fresh, WellLinked, Applied;
        JoinedIfTearsLast(h, c', work[1..]);
      }
    }
  }

  lemma LostTearsLast(work: seq<(Pending, Fault)>)
    ensures (forall j :: 0 <= j < |work| ==> work[j].1.Lost?) ==> TearsComeLast(work)
  {}

  lemma TearsStep(work: seq<(Pending, Fault)>)
    requires work != []
    ensures TearsComeLast(work) <==>
              TearsComeLast(work[1..]) && (work[0].1.Torn? ==> forall j :: 0 <= j < |work| - 1 ==> work[1..][j].1.Lost?)
  {
    assert forall j :: 0 <= j < |work| - 1 ==> work[1..][j] == work[j + 1];
    assert forall j :: 0 < j < |work| ==> work[j] == work[1..][j - 1];
  }

  lemma HeadIsNamed(h: Hash, c: Chain, p: Pending)
    requires WellLinked(h, c)
    ensures c.rows == [] || c.rows[|c.rows| - 1].payloadHash in Links(p.declared, c.head)
  {}

  lemma FreshStep(h: Hash, c: Chain, work: seq<(Pending, Fault)>)
    requires work != [] && Fresh(c.rows, work)
    ensures Fresh(Applied(h, c, work[0].0, work[0].1).rows, work[1..])
  {}

  /** The hash of a torn row is not the head the writer kept. */
  lemma TornStandsApart(h: Hash, c: Chain, p: Pending)
    requires Injective(h) && WellLinked(h, c)
    requires forall i :: 0 <= i < |c.rows| ==> c.rows[i].raw.record.eventId != p.record.eventId
    ensures Some(Linked(h, p, c.head).payloadHash) != c.head
  {
    if c.rows != [] {
      var last := c.rows[|c.rows| - 1];
      assert last.raw != Linked(h, p, c.head).raw;
    }
  }

  lemma {:induction false} AfterTear(h: Hash, c: Chain, work: seq<(Pending, Fault)>)
    requires c.rows != [] && c.head != Some(c.rows[|c.rows| - 1].payloadHash)
    requires forall i :: 0 <= i < |work| ==> work[i].0.declared == []
    ensures Joined(h, c, work) <==> forall i :: 0 <= i < |work| ==> work[i].1.Lost?
    decreases work
  {
    if work != [] && work[0].1.Lost? {
      AfterTear(h, c, work[1..]);
      assert forall j :: 0 <= j < |work| - 1 ==> work[1..][j] == work[j + 1];
      assert forall j :: 0 < j < |work| ==> work[j] == work[1..][j - 1];
    }
  }

  /** What a torn append does: its row stands, the next one links to the row before
      it, and verification reports the next one, unless the caller declared the torn
      row itself or it repeats the row before. */
  lemma TornIsReported(h: Hash, c: Chain, torn: Pending, next: Pending)
    requires WellLinked(h, c)
    ensures var c' := Applied(h, Applied(h, c, torn, Torn), next, Landed);
            var t := Linked(h, torn, c.head).payloadHash;
            && |c'.rows| == |c.rows| + 2
            && (Intact(h, c'.rows) <==> t in next.declared || Some(t) == c.head)
  {
    var work := [(torn, Torn), (next, Landed)];
    var mid := Applied(h, c, torn, Torn);
    LinkedIsIntact(h, c.rows);
    HeadIsNamed(h, c, torn);
    WhenRunIsIntact(h, c, work);
    var rest: seq<(Pending, Fault)> := [(next, Landed)];
    assert work[1..] == rest && rest[1..] == [];
    assert AppliedAll(h, c, work) == AppliedAll(h, mid, rest);
    assert AppliedAll(h, mid, rest) == AppliedAll(h, Applied(h, mid, next, Landed), []);
    assert Joined(h, c, work) <==> Joined(h, mid, rest);
    JoinedOne(h, mid, next);
    assert mid.rows[|mid.rows| - 1] == Linked(h, torn, c.head);
    AppliedRow(h, next, c.head, Linked(h, torn, c.head).payloadHash);
  }

  lemma JoinedOne(h: Hash, c: Chain, p: Pending)
    ensures Joined(h, c, [(p, Landed)]) <==> c.rows == [] || c.rows[|c.rows| - 1].payloadHash in Links(p.declared, c.head)
  {
    assert [(p, Landed)][1..] == [];
  }

  lemma AppliedRow(h: Hash, p: Pending, head: Option<string>, t: string)
    ensures t in Linked(h, p, head).parentIds <==> t in p.declared || Some(t) == head
  {}

  /** Adding a row that hashes itself to an intact ledger: intact again if and only if
      it names the row before. */
  lemma OneMoreRow(h: Hash, rows: seq<Row>, row: Row)
    requires Intact(h, rows) && h(row.raw) == row.payloadHash
    ensures Intact(h, rows + [row]) <==> rows == [] || rows[|rows| - 1].payloadHash in row.parentIds
  {
    var rows' := rows + [row];
    var n := |rows|;
    BreaksAreBroken(h, rows', 0, Break(n, ParentLinkBroken));
    if !Broken(h, rows', Break(n, ParentLinkBroken)) {
      forall i, k | 0 <= i < |rows'|
        ensures !Broken(h, rows', Break(i, k))
      {
        if i < n { NothingBroken(h, rows, i, k); }
      }
      NoBreaks(h, rows', 0);
    }
  }

  // ---- what verification notices ------------------------------------------

  /** Any change to a row's hashed content is reported there and nowhere else. */
  lemma AlteredRowIsReported(h: Hash, rows: seq<Row>, i: nat, raw: Raw)
    requires Injective(h) && Intact(h, rows) && i < |rows| && raw != rows[i].raw
    ensures Breaks(h, rows[i := rows[i].(raw := raw)], 0) == [Break(i, PayloadHashMismatch)]
  {
    var rows' := rows[i := rows[i].(raw := raw)];
    NothingBroken(h, rows, i, PayloadHashMismatch);
    forall j, k | 0 <= j < |rows'| && Break(j, k) != Break(i, PayloadHashMismatch)
      ensures !Broken(h, rows', Break(j, k))
    {
      NothingBroken(h, rows, j, k);
    }
    OneBreak(h, rows', 0, Break(i, PayloadHashMismatch));
  }

  /** The money columns are not part of what is hashed: the verdict does not read them. */
  lemma {:induction false} MoneyIsNotHashed(h: Hash, rows: seq<Row>, i: nat, price: Option<real>, quantity: Option<real>, from: nat)
    requires i < |rows| && from <= |rows|
    ensures Breaks(h, rows[i := rows[i].(price := price, quantity := quantity)], from) == Breaks(h, rows, from)
    decreases |rows| - from
  {
    if from < |rows| {
      var rows' := rows[i := rows[i].(price := price, quantity := quantity)];
      assert forall k :: Broken(h, rows', Break(from, k)) == Broken(h, rows, Break(from, k));
      assert BreaksAt(h, rows', from) == BreaksAt(h, rows, from);
      hide Broken, BreaksAt;
      MoneyIsNotHashed(h, rows, i, price, quantity, from + 1);
    }
  }

  function Without(rows: seq<Row>, i: nat): (r: seq<Row>)
    requires i < |rows|
  {
    rows[..i] + rows[i + 1..]
  }

  /** Exactly when a removed row is noticed: it had both neighbours, and its successor
      names no link to its predecessor. Then the successor's new position is reported. */
  lemma RemovedRowIsReported(h: Hash, rows: seq<Row>, i: nat)
    requires Intact(h, rows) && i < |rows|
    ensures Breaks(h, Without(rows, i), 0)
         == if 0 < i < |rows| - 1 && rows[i - 1].payloadHash !in rows[i + 1].parentIds then [Break(i, ParentLinkBroken)] else []
  {
    var rows' := Without(rows, i);
    forall j, k | 0 <= j < |rows'| && Break(j, k) != Break(i, ParentLinkBroken)
      ensures !Broken(h, rows', Break(j, k))
    {
      NothingBroken(h, rows, if j < i then j else j + 1, k);
    }
    if i < |rows'| && Broken(h, rows', Break(i, ParentLinkBroken)) {
      OneBreak(h, rows', 0, Break(i, ParentLinkBroken));
    } else {
      forall j, k | 0 <= j < |rows'|
        ensures !Broken(h, rows', Break(j, k))
      {}
      NoBreaks(h, rows', 0);
    }
  }

  predicate DistinctIds(rows: seq<Row>) {
    forall i, j :: 0 <= i < j < |rows| ==> rows[i].raw.record.eventId != rows[j].raw.record.eventId
  }

  /** With one link only, the successor of a removed middle row always gives it away:
      two rows of distinct events have distinct hashes. */
  lemma RemovedRowAlwaysReported(h: Hash, rows: seq<Row>, i: nat)
    requires Injective(h) && RowsLinked(h, rows) && DistinctIds(rows)
    requires 0 < i < |rows| - 1 && |rows[i + 1].parentIds| == 1
    ensures Breaks(h, Without(rows, i), 0) == [Break(i, ParentLinkBroken)]
  {
    LinkedIsIntact(h, rows);
    RemovedRowIsReported(h, rows, i);
    assert rows[i + 1].parentIds == [rows[i].payloadHash];
    assert rows[i - 1].raw.record.eventId != rows[i].raw.record.eventId;
  }

  function Inserted(rows: seq<Row>, i: nat, row: Row): (r: seq<Row>)
    requires i <= |rows|
  {
    rows[..i] + [row] + rows[i..]
  }

  /** Exactly when a row written past the writer, anywhere, goes unnoticed: it hashes
      itself, names the row before it, and is named by the row behind it. */
  lemma CovertRowIsReported(h: Hash, rows: seq<Row>, i: nat, row: Row)
    requires Intact(h, rows) && i <= |rows|
    ensures Intact(h, Inserted(rows, i, row)) <==>
              && h(row.raw) == row.payloadHash
              && (i > 0 ==> rows[i - 1].payloadHash in row.parentIds)
              && (i < |rows| ==> row.payloadHash in rows[i].parentIds)
  {
    var rows' := Inserted(rows, i, row);
    if Intact(h, rows') {
      NothingBroken(h, rows', i, PayloadHashMismatch);
      NothingBroken(h, rows', i, ParentLinkBroken);
      if i < |rows| { NothingBroken(h, rows', i + 1, ParentLinkBroken); }
    } else {
      var b := Breaks(h, rows', 0)[0];
      BreaksAreBroken(h, rows', 0, b);
      OldRowsStand(h, rows, i, row, b);
    }
  }

  /** A break after an insertion is at the new row, or is the link of the one behind it. */
  lemma OldRowsStand(h: Hash, rows: seq<Row>, i: nat, row: Row, b: Break)
    requires Intact(h, rows) && i <= |rows| && b.index <= |rows| && Broken(h, Inserted(rows, i, row), b)
    ensures b.index == i || b == Break(i + 1, ParentLinkBroken)
  {
    var j := b.index;
    if j < i {
      NothingBroken(h, rows, j, b.kind);
    } else if j > i {
      NothingBroken(h, rows, j - 1, b.kind);
    }
    assert b == Break(j, b.kind);
  }

  /** Between two rows such a row is always noticed if its successor declared no links and
      it is not a copy of its predecessor. */
  lemma CovertRowAlwaysReported(h: Hash, rows: seq<Row>, i: nat, row: Row)
    requires Injective(h) && RowsLinked(h, rows) && 0 < i < |rows| && |rows[i].parentIds| == 1
    requires row.raw != rows[i - 1].raw
    ensures !Intact(h, Inserted(rows, i, row))
  {
    LinkedIsIntact(h, rows);
    CovertRowIsReported(h, rows, i, row);
    assert rows[i].parentIds == [rows[i - 1].payloadHash];
  }
}
