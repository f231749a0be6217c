/** The recovery log: a hash chain verified on recomputed hashes, so that one change
    breaks every later position. */
module RecoveryLog {
  datatype Content = Content(kind: string, reason: string, snapshotId: string, recoveryState: string, createdAt: string)

  datatype Row = Row(content: Content, payloadHash: string, parentHash: string)

  type Hash = (Content, string) -> string

  ghost predicate Sound(h: Hash) {
    && (forall a, b, p, q :: h(a, p) == h(b, q) ==> a == b && p == q)
    && (forall a, p :: h(a, p) != "")
  }

  function LastHash(rows: seq<Row>): (head: string) { if rows == [] then "" else rows[|rows| - 1].payloadHash }

  function Appended(h: Hash, rows: seq<Row>, c: Content): (r: seq<Row>) {
    rows + [Row(c, h(c, LastHash(rows)), LastHash(rows))]
  }

  function AppendedAll(h: Hash, rows: seq<Row>, cs: seq<Content>): (r: seq<Row>) {
    if cs == [] then rows else Appended(h, AppendedAll(h, rows, cs[..|cs| - 1]), cs[|cs| - 1])
  }

  /** The hash recomputed at each position from the contents alone. */
  function Recomputed(h: Hash, rows: seq<Row>): (head: string) {
    if rows == [] then "" else h(rows[|rows| - 1].content, Recomputed(h, rows[..|rows| - 1]))
  }

  predicate BreaksAt(h: Hash, rows: seq<Row>, i: nat)
    requires i < |rows|
  {
    Recomputed(h, rows[..i + 1]) != rows[i].payloadHash
  }

  /** Verification reports these positions, in order. */
  function Breaks(h: Hash, rows: seq<Row>, n: nat): (r: seq<nat>)
    requires n <= |rows|
  {
    if n == 0 then [] else Breaks(h, rows, n - 1) + (if BreaksAt(h, rows, n - 1) then [n - 1] else [])
  }

  predicate Intact(h: Hash, rows: seq<Row>) { forall i :: 0 <= i < |rows| ==> !BreaksAt(h, rows, i) }

  lemma {:induction false} BreaksAreThese(h: Hash, rows: seq<Row>, n: nat, i: nat)
    requires n <= |rows|
    ensures i in Breaks(h, rows, n) <==> i < n && BreaksAt(h, rows, i)
  {
    hide BreaksAt;
    if n > 0 { BreaksAreThese(h, rows, n - 1, i); }
  }

  lemma RecomputedStep(h: Hash, rows: seq<Row>, i: nat)
    requires i < |rows|
    ensures Recomputed(h, rows[..i + 1]) == h(rows[i].content, Recomputed(h, rows[..i]))
  {
    assert rows[..i + 1][..i] == rows[..i];
  }

  lemma WholeRecomputed(h: Hash, rows: seq<Row>)
    requires Intact(h, rows)
    ensures Recomputed(h, rows) == LastHash(rows)
  {
    if rows != [] {
      assert !BreaksAt(h, rows, |rows| - 1) && rows[..|rows|] == rows;
    }
  }

  lemma AppendKeepsIntact(h: Hash, rows: seq<Row>, c: Content)
    requires Intact(h, rows)
    ensures Intact(h, Appended(h, rows, c))
  {
    var rows' := Appended(h, rows, c);
    WholeRecomputed(h, rows);
    forall i | 0 <= i < |rows'|
      ensures !BreaksAt(h, rows', i)
    {
      RecomputedStep(h, rows', i);
      assert rows'[..|rows|] == rows;
      if i < |rows| {
        assert !BreaksAt(h, rows, i) && rows'[..i + 1] == rows[..i + 1];
      }
    }
  }

  /** Any appends keep the log in memory verifying. */
  lemma {:induction false} AlwaysVerifies(h: Hash, rows: seq<Row>, cs: seq<Content>)
    requires Intact(h, rows)
    ensures Intact(h, AppendedAll(h, rows, cs))
  {
    hide Intact, Appended;
    if cs != [] {
      AlwaysVerifies(h, rows, cs[..|cs| - 1]);
      AppendKeepsIntact(h, AppendedAll(h, rows, cs[..|cs| - 1]), cs[|cs| - 1]);
    }
  }

  /** No hash of the chain repeats its parent: otherwise the first would be empty. */
  lemma {:induction false} NoHashRepeatsItsParent(h: Hash, rows: seq<Row>, i: nat)
    requires Sound(h) && i < |rows|
    ensures Recomputed(h, rows[..i + 1]) != Recomputed(h, rows[..i])
    decreases i
  {
    RecomputedStep(h, rows, i);
    if i == 0 {
      assert rows[..0] == [];
    } else {
      NoHashRepeatsItsParent(h, rows, i - 1);
      RecomputedStep(h, rows, i - 1);
    }
  }

  predicate SameAt(rows: seq<Row>, other: seq<Row>, i: nat, j: nat, m: nat) {
    i + m < |rows| && j + m < |other| && rows[i + m].content == other[j + m].content
  }

  /** Once the recomputed head differs it never agrees again. */
  lemma {:induction false} DifferenceSpreads(h: Hash, rows: seq<Row>, other: seq<Row>, i: nat, j: nat, k: nat)
    requires Sound(h) && i <= |rows| && j <= |other| && i + k <= |rows| && j + k <= |other|
    requires Recomputed(h, rows[..i]) != Recomputed(h, other[..j])
    requires forall m: nat :: m < k ==> SameAt(rows, other, i, j, m)
    ensures Recomputed(h, rows[..i + k]) != Recomputed(h, other[..j + k])
    decreases k
  {
    hide Recomputed, Sound;
    if k > 0 {
      DifferenceSpreads(h, rows, other, i, j, k - 1);
      assert SameAt(rows, other, i, j, k - 1);
      hide SameAt;
      DifferenceStep(h, rows, other, i + k - 1, j + k - 1);
    }
  }

  lemma DifferenceStep(h: Hash, rows: seq<Row>, other: seq<Row>, i: nat, j: nat)
    requires Sound(h) && i < |rows| && j < |other| && rows[i].content == other[j].content
    requires Recomputed(h, rows[..i]) != Recomputed(h, other[..j])
    ensures Recomputed(h, rows[..i + 1]) != Recomputed(h, other[..j + 1])
  {
    hide Recomputed, Sound;
    RecomputedStep(h, rows, i);
    RecomputedStep(h, other, j);
    HashesApart(h, rows[i].content, Recomputed(h, rows[..i]), Recomputed(h, other[..j]));
  }

  lemma HashesApart(h: Hash, c: Content, p: string, q: string)
    requires Sound(h) && p != q
    ensures h(c, p) != h(c, q)
  {}

  /** A changed payload breaks its own position and every later one, and no earlier one. */
  lemma ChangedRowBreaksTheRest(h: Hash, rows: seq<Row>, i: nat, c: Content, j: nat)
    requires Sound(h) && Intact(h, rows) && i < |rows| && c != rows[i].content && j < |rows|
    ensures BreaksAt(h, rows[i := rows[i].(content := c)], j) <==> i <= j
  {
    hide Recomputed;
    var rows' := rows[i := rows[i].(content := c)];
    assert !BreaksAt(h, rows, j);
    if j < i {
      assert rows'[..j + 1] == rows[..j + 1];
    } else {
      RecomputedStep(h, rows, i);
      RecomputedStep(h, rows', i);
      DifferenceSpreads(h, rows, rows', i + 1, i + 1, j - i);
      assert rows'[j].payloadHash == rows[j].payloadHash;
    }
  }

  /** A dropped row breaks every later position; dropping the last row breaks nothing. */
  lemma DroppedRowBreaksTheRest(h: Hash, rows: seq<Row>, i: nat, j: nat)
    requires Sound(h) && Intact(h, rows) && i < |rows| && j < |rows| - 1
    ensures BreaksAt(h, rows[..i] + rows[i + 1..], j) <==> i <= j
  {
    hide Recomputed;
    var rows' := rows[..i] + rows[i + 1..];
    if j < i {
      assert !BreaksAt(h, rows, j) && rows'[..j + 1] == rows[..j + 1];
    } else {
      assert !BreaksAt(h, rows, j + 1) && rows'[..i] == rows[..i];
      NoHashRepeatsItsParent(h, rows, i);
      DifferenceSpreads(h, rows, rows', i + 1, i, j + 1 - i);
      assert rows'[j] == rows[j + 1];
    }
  }

  /** A changed stored hash is noticed at its own position only: the chain runs on
      recomputed hashes. The stored parent is not read at all. */
  lemma StoredHashBreaksItself(h: Hash, rows: seq<Row>, i: nat, hash: string, parent: string, j: nat)
    requires Intact(h, rows) && i < |rows| && hash != rows[i].payloadHash && j < |rows|
    ensures BreaksAt(h, rows[i := Row(rows[i].content, hash, parent)], j) <==> i == j
  {
    var rows' := rows[i := Row(rows[i].content, hash, parent)];
    assert !BreaksAt(h, rows, j);
    SameContents(h, rows, rows', j + 1);
  }

  lemma {:induction false} SameContents(h: Hash, rows: seq<Row>, other: seq<Row>, n: nat)
    requires |rows| == |other| && n <= |rows| && forall i :: 0 <= i < |rows| ==> rows[i].content == other[i].content
    ensures Recomputed(h, rows[..n]) == Recomputed(h, other[..n])
  {
    if n > 0 {
      SameContents(h, rows, other, n - 1);
      RecomputedStep(h, rows, n - 1);
      RecomputedStep(h, other, n - 1);
    }
  }

  // ---- memory, table and reloads ------------------------------------------

  /** One append as the table comes to see it: it goes into memory first, and its row lands
      in the table or never does. */
  datatype Write = Write(content: Content, landed: bool)

  datatype Store = Store(rows: seq<Row>, durable: seq<Row>)

  function Written(h: Hash, s: Store, w: Write): (r: Store) {
    var rows := Appended(h, s.rows, w.content);
    Store(rows, if w.landed then s.durable + [rows[|rows| - 1]] else s.durable)
  }

  function WrittenAll(h: Hash, s: Store, ws: seq<Write>): (r: Store) {
    if ws == [] then s else Written(h, WrittenAll(h, s, ws[..|ws| - 1]), ws[|ws| - 1])
  }

  /** Nothing landed after something that did not. */
  predicate Orderly(ws: seq<Write>) { forall i, j :: 0 <= i < j < |ws| && ws[j].landed ==> ws[i].landed }

  predicate AllLanded(ws: seq<Write>) { forall i :: 0 <= i < |ws| ==> ws[i].landed }

  /** A recomputed hash knows how many rows it was made of. */
  lemma {:induction false} HashKnowsLength(h: Hash, x: seq<Row>, y: seq<Row>)
    requires Sound(h) && Recomputed(h, x) == Recomputed(h, y)
    ensures |x| == |y|
    decreases |x|
  {
    if x != [] && y != [] { HashKnowsLength(h, x[..|x| - 1], y[..|y| - 1]); }
  }

  /** Row `j` of the table is a row of the memory that stands further on. */
  predicate Moved(s: Store, j: nat)
    requires j < |s.durable|
  {
    exists m :: j < m < |s.rows| && s.durable[j] == s.rows[m]
  }

  /** The table against the memory within one process that began with `n` good rows. */
  ghost predicate Tracks(h: Hash, n: nat, s: Store, ws: seq<Write>) {
    && Intact(h, s.rows) && n <= |s.durable| <= |s.rows|
    && (if Orderly(ws) then s.durable <= s.rows
        else exists j :: n <= j < |s.durable| && Moved(s, j))
    && (|s.durable| == |s.rows| <==> AllLanded(ws))
  }

  lemma {:induction false} WritesTrack(h: Hash, rows: seq<Row>, ws: seq<Write>)
    requires Intact(h, rows)
    ensures Tracks(h, |rows|, WrittenAll(h, Store(rows, rows), ws), ws)
    ensures rows <= WrittenAll(h, Store(rows, rows), ws).durable
  {
    hide Tracks, Written;
    if ws == [] {
      StartTracks(h, rows);
    } else {
      var front, w := ws[..|ws| - 1], ws[|ws| - 1];
      var s := WrittenAll(h, Store(rows, rows), front);
      WritesTrack(h, rows, front);
      assert ws == front + [w];
      TrackStep(h, |rows|, s, front, w);
      DurableGrows(h, rows, ws);
    }
  }

  lemma StartTracks(h: Hash, rows: seq<Row>)
    requires Intact(h, rows)
    ensures Tracks(h, |rows|, Store(rows, rows), [])
  {
    hide Intact;
  }

  lemma TrackStep(h: Hash, n: nat, s: Store, front: seq<Write>, w: Write)
    requires Tracks(h, n, s, front)
    ensures Tracks(h, n, Written(h, s, w), front + [w])
  {
    AppendKeepsIntact(h, s.rows, w.content);
    AppendedIsLonger(h, s.rows, w.content);
    OrderlyStep(front, w);
    AllLandedStep(front, w);
    hide Intact, Appended, Orderly, AllLanded, Moved;
    var s' := Written(h, s, w);
    MovedStays(s, s');
    if w.landed && Orderly(front) && !Orderly(front + [w]) { LastMoved(s, s'); }
  }

  lemma MovedStays(s: Store, s': Store)
    requires s.rows <= s'.rows && s.durable <= s'.durable
    ensures forall j :: 0 <= j < |s.durable| && Moved(s, j) ==> Moved(s', j)
  {}

  lemma LastMoved(s: Store, s': Store)
    requires s'.rows != [] && s.rows == s'.rows[..|s'.rows| - 1] && s'.durable == s.durable + [s'.rows[|s'.rows| - 1]]
    requires |s.durable| < |s.rows|
    ensures Moved(s', |s.durable|)
  {
    assert s'.durable[|s.durable|] == s'.rows[|s.rows|];
  }

  lemma AppendedIsLonger(h: Hash, rows: seq<Row>, c: Content)
    ensures |Appended(h, rows, c)| == |rows| + 1 && rows <= Appended(h, rows, c) && Appended(h, rows, c)[..|rows|] == rows
  {}

  lemma OrderlyStep(ws: seq<Write>, w: Write)
    ensures Orderly(ws + [w]) <==> Orderly(ws) && (w.landed ==> AllLanded(ws))
  {
    var all := ws + [w];
    assert forall i :: 0 <= i < |ws| ==> all[i] == ws[i];
    assert all[|ws|] == w;
  }

  lemma AllLandedStep(ws: seq<Write>, w: Write)
    ensures AllLanded(ws + [w]) <==> AllLanded(ws) && w.landed
  {
    var all := ws + [w];
    assert forall i :: 0 <= i < |ws| ==> all[i] == ws[i];
    assert all[|ws|] == w;
  }

  lemma MovedRowBreaks(h: Hash, s: Store, j: nat)
    requires Sound(h) && Intact(h, s.rows) && j < |s.durable| && Moved(s, j)
    ensures BreaksAt(h, s.durable, j)
  {
    var m :| j < m < |s.rows| && s.durable[j] == s.rows[m];
    assert !BreaksAt(h, s.rows, m);
    hide Recomputed, Sound;
    if Recomputed(h, s.durable[..j + 1]) == Recomputed(h, s.rows[..m + 1]) {
      HashKnowsLength(h, s.durable[..j + 1], s.rows[..m + 1]);
    }
  }

  lemma PrefixIsIntact(h: Hash, rows: seq<Row>, more: seq<Row>)
    requires rows <= more && Intact(h, more)
    ensures Intact(h, rows)
  {
    hide Recomputed;
    forall i | 0 <= i < |rows|
      ensures !BreaksAt(h, rows, i)
    {
      assert !BreaksAt(h, more, i) && more[..i + 1] == rows[..i + 1];
    }
  }

  lemma EmptyIsIntact(h: Hash)
    ensures Intact(h, [])
  {}

  lemma ProcessVerifies(h: Hash, rows: seq<Row>, ws: seq<Write>)
    requires Sound(h)
    ensures Intact(h, WrittenAll(h, Store(rows, rows), ws).durable) <==> Intact(h, rows) && Orderly(ws)
  {
    hide Orderly, Sound, Recomputed;
    var s := WrittenAll(h, Store(rows, rows), ws);
    DurableGrows(h, rows, ws);
    if Intact(h, s.durable) { PrefixIsIntact(h, rows, s.durable); }
    if Intact(h, rows) {
      WritesTrack(h, rows, ws);
      if Orderly(ws) {
        PrefixIsIntact(h, s.durable, s.rows);
      } else {
        var j :| |rows| <= j < |s.durable| && Moved(s, j);
        MovedRowBreaks(h, s, j);
      }
    }
  }

  lemma {:induction false} DurableGrows(h: Hash, rows: seq<Row>, ws: seq<Write>)
    ensures rows <= WrittenAll(h, Store(rows, rows), ws).durable
  {
    if ws != [] { DurableGrows(h, rows, ws[..|ws| - 1]); }
  }

  // ---- insertions and commits ---------------------------------------------

  /** How an append ends: committed; raised before its row was inserted; or raised by the
      commit, with its row left in the open transaction for a later commit to land. */
  datatype Fate = Committed | Raised | Uncommitted

  datatype Entry = Entry(content: Content, fate: Fate)

  /** Memory, committed rows, and the rows of the open transaction. */
  datatype Session = Session(rows: seq<Row>, durable: seq<Row>, open: seq<Row>)

  function Entered(h: Hash, s: Session, e: Entry): (r: Session) {
    var rows := Appended(h, s.rows, e.content);
    var row := rows[|rows| - 1];
    match e.fate
    case Committed => Session(rows, s.durable + s.open + [row], [])
    case Raised => Session(rows, s.durable, s.open)
    case Uncommitted => Session(rows, s.durable, s.open + [row])
  }

  function EnteredAll(h: Hash, s: Session, es: seq<Entry>): (r: Session) {
    if es == [] then s else Entered(h, EnteredAll(h, s, es[..|es| - 1]), es[|es| - 1])
  }

  /** The table after some processes: each reloads the committed rows, appends, and ends
      with whatever transaction is open rolled back. */
  function Reloaded(h: Hash, processes: seq<seq<Entry>>): (rows: seq<Row>) {
    if processes == [] then []
    else
      var rows := Reloaded(h, processes[..|processes| - 1]);
      EnteredAll(h, Session(rows, rows, []), processes[|processes| - 1]).durable
  }

  /** As if every inserted row had been committed. */
  function Inserted(es: seq<Entry>): (ws: seq<Write>) {
    seq(|es|, i requires 0 <= i < |es| => Write(es[i].content, !es[i].fate.Raised?))
  }

  /** What the table has come to see: a row lands with the first commit from its own on. */
  function Landings(es: seq<Entry>): (ws: seq<Write>)
    ensures |ws| == |es|
  {
    if es == [] then []
    else if es[|es| - 1].fate.Committed? then Inserted(es)
    else Landings(es[..|es| - 1]) + [Write(es[|es| - 1].content, false)]
  }

  lemma {:induction false} SessionIsStore(h: Hash, rows: seq<Row>, es: seq<Entry>)
    ensures var s := EnteredAll(h, Session(rows, rows, []), es);
            && WrittenAll(h, Store(rows, rows), Landings(es)) == Store(s.rows, s.durable)
            && WrittenAll(h, Store(rows, rows), Inserted(es)) == Store(s.rows, s.durable + s.open)
  {
    hide Appended;
    if es == [] {
      assert rows + [] == rows;
    } else {
      var front, e := es[..|es| - 1], es[|es| - 1];
      var s := EnteredAll(h, Session(rows, rows, []), front);
      SessionIsStore(h, rows, front);
      assert Inserted(es) == Inserted(front) + [Write(e.content, !e.fate.Raised?)];
      WriteOneMore(h, Store(rows, rows), Inserted(front), Write(e.content, !e.fate.Raised?));
      WriteOneMore(h, Store(rows, rows), Landings(front), Write(e.content, false));
      hide WrittenAll, Inserted, Landings;
      SessionStep(h, s, e);
    }
  }

  lemma WriteOneMore(h: Hash, s: Store, ws: seq<Write>, w: Write)
    ensures WrittenAll(h, s, ws + [w]) == Written(h, WrittenAll(h, s, ws), w)
  {
    assert (ws + [w])[..|ws|] == ws;
  }

  lemma SessionStep(h: Hash, s: Session, e: Entry)
    ensures var t := Entered(h, s, e);
            && Written(h, Store(s.rows, s.durable + s.open), Write(e.content, !e.fate.Raised?)) == Store(t.rows, t.durable + t.open)
            && (!e.fate.Committed? ==> Written(h, Store(s.rows, s.durable), Write(e.content, false)) == Store(t.rows, t.durable))
            && (e.fate.Committed? ==> t.open == [] && t.durable + t.open == t.durable)
  {
    hide Appended;
    var rows := Appended(h, s.rows, e.content);
    AppendedIsLonger(h, s.rows, e.content);
    var row := rows[|rows| - 1];
    assert (s.durable + s.open) + [row] == s.durable + (s.open + [row]);
  }

  /** Nothing was committed after an append that had raised before its row was inserted. */
  predicate NoneSkipped(es: seq<Entry>) {
    forall i, j :: 0 <= i < j < |es| && es[j].fate.Committed? ==> !es[i].fate.Raised?
  }

  lemma {:induction false} OrderlyIfNoneSkipped(es: seq<Entry>)
    ensures Orderly(Landings(es)) <==> NoneSkipped(es)
  {
    if es != [] {
      var front, e := es[..|es| - 1], es[|es| - 1];
      OrderlyIfNoneSkipped(front);
      assert es == front + [e];
      NoneSkippedStep(front, e);
      if e.fate.Committed? {
        assert Orderly(Inserted(es)) <==> NoneRaised(front) by {
          InsertedOrder(front, e);
        }
        NoneRaisedNoneSkipped(front);
      } else {
        OrderlyStep(Landings(front), Write(e.content, false));
      }
    }
  }

  predicate NoneRaised(es: seq<Entry>) { forall i :: 0 <= i < |es| ==> !es[i].fate.Raised? }

  lemma NoneRaisedNoneSkipped(es: seq<Entry>)
    ensures NoneRaised(es) ==> NoneSkipped(es)
  {}

  lemma NoneSkippedStep(es: seq<Entry>, e: Entry)
    ensures NoneSkipped(es + [e]) <==> NoneSkipped(es) && (e.fate.Committed? ==> NoneRaised(es))
  {
    var all := es + [e];
    assert forall i :: 0 <= i < |es| ==> all[i] == es[i];
    assert all[|es|] == e;
  }

  /** With a committed last row, order among the inserted ones means that none raised. */
  lemma InsertedOrder(es: seq<Entry>, e: Entry)
    requires e.fate.Committed?
    ensures Orderly(Inserted(es + [e])) <==> NoneRaised(es)
  {
    var ws := Inserted(es + [e]);
    assert forall i :: 0 <= i < |es| ==> ws[i].landed == !es[i].fate.Raised?;
    assert ws[|es|].landed;
  }

  /** Over any processes the reloaded log verifies if and only if in no process an append
      was committed after one whose row was never inserted: the chain in memory went on
      from a row that the table never got. A row whose own commit raised does no harm, as
      the next commit lands it first. */
  lemma {:induction false} WhenReloadedVerifies(h: Hash, processes: seq<seq<Entry>>)
    requires Sound(h)
    ensures Intact(h, Reloaded(h, processes)) <==> forall i :: 0 <= i < |processes| ==> NoneSkipped(processes[i])
  {
    hide Intact, Orderly, NoneSkipped, Sound, Moved, BreaksAt, Landings;
    if processes == [] {
      EmptyIsIntact(h);
    } else {
      var front, es := processes[..|processes| - 1], processes[|processes| - 1];
      WhenReloadedVerifies(h, front);
      assert forall i :: 0 <= i < |front| ==> front[i] == processes[i];
      SessionIsStore(h, Reloaded(h, front), es);
      ProcessVerifies(h, Reloaded(h, front), Landings(es));
      OrderlyIfNoneSkipped(es);
    }
  }

  // ---- the log object -----------------------------------------------------

  class Log {
    const hash: Hash
    var rows: seq<Row>
    var head: string
    var durable: seq<Row>
    var open: seq<Row>

    /** Opening reloads the durable rows and resumes from the last stored hash. */
    constructor (hash: Hash, durable: seq<Row>)
      ensures this.hash == hash && Kept() == Session(durable, durable, []) && head == LastHash(rows)
    {
      this.hash, rows, head, this.durable, open := hash, durable, LastHash(durable), durable, [];
    }

    function Kept(): (s: Session)
      reads this
    {
      Session(rows, durable, open)
    }

    /** Memory first, then the table: an insertion or a commit that raises leaves the
        memory ahead. */
    method Append(e: Entry) returns (ok: bool)
      requires head == LastHash(rows)
      modifies this
      ensures Kept() == Entered(hash, old(Kept()), e) && head == LastHash(rows) && ok == e.fate.Committed?
    {
      var row := Row(e.content, hash(e.content, head), head);
      rows := rows + [row];
      head := row.payloadHash;
      if e.fate.Raised? { return false; }
      open := open + [row];
      if e.fate.Uncommitted? { return false; }
      durable, open := durable + open, [];
      return true;
    }

    method Verify() returns (breaks: seq<nat>)
      ensures breaks == Breaks(hash, rows, |rows|)
      ensures breaks == [] <==> Intact(hash, rows)
    {
      breaks := [];
      var running := "";
      var i := 0;
      while i < |rows|
        invariant 0 <= i <= |rows| && running == Recomputed(hash, rows[..i]) && breaks == Breaks(hash, rows, i)
      {
        RecomputedStep(hash, rows, i);
        running := hash(rows[i].content, running);
        if running != rows[i].payloadHash { breaks := breaks + [i]; }
        i := i + 1;
      }
      forall k | 0 <= k < |rows|
        ensures k in breaks <==> BreaksAt(hash, rows, k)
      {
        BreaksAreThese(hash, rows, |rows|, k);
      }
      if breaks != [] { BreaksAreThese(hash, rows, |rows|, breaks[0]); }
    }
  }
}
