/** The exchange adapter's submission path: the refusals before the wire, the bounded
    retry loop, and the cache of results by intent. */
module Adapter {
  import opened Wrappers
  import opened WireMap

  const ATTEMPTS := 3

  /** What one transport call comes to. A wave-out error and a cancellation escape. */
  datatype Answer =
    | Responded(http: Option<int>, code: Option<int>, status: Option<string>, orderId: Option<string>)
    | TimedOut | AdapterFault | TransportFault | Escapes

  /** One attempt: it waits in vain for a token, raises before the transport is called
      (signing, a bad timestamp, a cancelled wait), or calls it. */
  datatype Attempt = NoToken | Unsent | Sent(answer: Answer)

  /** An exception that leaves the loop. */
  predicate Leaves(a: Attempt) { a == Unsent || a == Sent(Escapes) }

  /** The one answer that is tried again. */
  predicate BacksOff(a: Attempt) { a.Sent? && a.answer.Responded? && Classify(a.answer.code, a.answer.http) == BACKOFF }

  datatype Source = TRANSPORT | RATE_LIMIT | REFUSED | CACHE

  datatype AttemptRecord = AttemptRecord(
    no: nat, key: string, verdict: Class, code: Option<int>, orderId: Option<string>, outcome: Outcome, source: Source)

  datatype Reply = Reply(
    verdict: Class, outcome: Outcome, code: Option<int>, orderId: Option<string>, key: string,
    reconcile: bool, resubmitted: bool, cached: bool, error: Option<string>)

  /** One call: the order, the settings, and what the world will answer to each attempt. */
  datatype Call = Call(
    order: Order, filters: Filters, signed: bool, credentials: bool, nonce: string,
    clock: nat -> string, venue: nat -> Attempt)

  datatype CallResult = Returned(reply: Reply) | Raised(reason: string) | Escaped

  // ---- one pass through the retry loop ------------------------------------

  function OneDigit(k: nat): (s: string)
    requires k < 10
  {
    [('0' as int + k) as char]
  }

  /** The text that is hashed into the idempotency key of one attempt. */
  function KeyText(c: Call, orderId: Option<string>, k: nat): (s: string)
    requires 1 <= k <= ATTEMPTS
  {
    c.order.intent + "||" + (if orderId.Some? then orderId.value else "") + "||" + c.clock(k) + "||"
    + (if c.nonce == "" then "n" else c.nonce) + ":" + OneDigit(k)
  }

  function RecordOf(c: Call, orderId: Option<string>, k: nat): (r: AttemptRecord)
    requires 1 <= k <= ATTEMPTS && !Leaves(c.venue(k))
  {
    var key := KeyText(c, orderId, k);
    match c.venue(k)
    case NoToken => AttemptRecord(k, key, UNKNOWN_CLASS, None, None, Unknown, RATE_LIMIT)
    case Sent(Responded(http, code, status, oid)) =>
      var verdict := Classify(code, http);
      AttemptRecord(k, key, verdict, code, oid, OutcomeFor(verdict, status), TRANSPORT)
    case Sent(AdapterFault) => AttemptRecord(k, key, UNMAPPED, None, None, Unknown, TRANSPORT)
    case Sent(_) => AttemptRecord(k, key, UNKNOWN_CLASS, None, None, Unknown, TRANSPORT)
  }

  /** The records of the attempts, how many reached the transport, and whether an
      exception left the loop. */
  datatype Pass = Pass(records: seq<AttemptRecord>, sent: nat, escaped: bool)

  function PassFrom(c: Call, orderId: Option<string>, k: nat): (p: Pass)
    requires 1 <= k <= ATTEMPTS
    decreases ATTEMPTS - k
  {
    if Leaves(c.venue(k)) then Pass([], if c.venue(k).Sent? then 1 else 0, true)
    else
      var r := RecordOf(c, orderId, k);
      var sent := if r.source == TRANSPORT then 1 else 0;
      if r.verdict == BACKOFF && k < ATTEMPTS then
        var more := PassFrom(c, r.orderId, k + 1);
        Pass([r] + more.records, sent + more.sent, more.escaped)
      else Pass([r], sent, false)
  }

  /** The loop is bounded, and an attempt after the first follows a backoff answer only. */
  lemma {:induction false} PassLaw(c: Call, orderId: Option<string>, k: nat)
    requires 1 <= k <= ATTEMPTS
    ensures var p := PassFrom(c, orderId, k);
            && |p.records| <= 4 - k && p.sent <= 4 - k && (p.escaped || p.records != [])
            && (forall i :: 0 <= i < |p.records| ==> p.records[i].no == k + i)
            && (forall i :: 0 <= i < |p.records| && (i < |p.records| - 1 || p.escaped) ==> p.records[i].verdict == BACKOFF)
            && (!p.escaped && p.records[|p.records| - 1].verdict == BACKOFF ==> |p.records| == 4 - k)
    decreases ATTEMPTS - k
  {
    hide RecordOf;
    if !Leaves(c.venue(k)) {
      var r := RecordOf(c, orderId, k);
      RecordsNumber(c, orderId, k);
      if r.verdict == BACKOFF && k < ATTEMPTS { PassLaw(c, r.orderId, k + 1); }
    }
  }

  /** The world breaks a call off: an exception leaves the loop at some attempt that every
      earlier one, answered by a backoff, led up to. */
  predicate BrokenOffAt(c: Call, from: nat, k: nat) {
    from <= k <= ATTEMPTS && Leaves(c.venue(k)) && forall j :: from <= j < k ==> BacksOff(c.venue(j))
  }

  predicate BrokenOffFrom(c: Call, from: nat) { exists k: nat :: k <= ATTEMPTS && BrokenOffAt(c, from, k) }

  predicate BrokenOff(c: Call) { BrokenOffFrom(c, 1) }

  lemma BreaksLater(c: Call, k: nat)
    requires k <= ATTEMPTS
    ensures BrokenOffFrom(c, k) <==> Leaves(c.venue(k)) || (BacksOff(c.venue(k)) && BrokenOffFrom(c, k + 1))
  {
    hide Leaves, BacksOff;
    if Leaves(c.venue(k)) { assert BrokenOffAt(c, k, k); }
    if BrokenOffFrom(c, k) && !Leaves(c.venue(k)) {
      var m: nat :| m <= ATTEMPTS && BrokenOffAt(c, k, m);
      assert BrokenOffAt(c, k + 1, m);
    }
    if BacksOff(c.venue(k)) && BrokenOffFrom(c, k + 1) {
      var m: nat :| m <= ATTEMPTS && BrokenOffAt(c, k + 1, m);
      assert BrokenOffAt(c, k, m);
    }
  }

  lemma {:induction false} PassEscapes(c: Call, orderId: Option<string>, k: nat)
    requires 1 <= k <= ATTEMPTS
    ensures PassFrom(c, orderId, k).escaped <==> BrokenOffFrom(c, k)
    decreases ATTEMPTS - k
  {
    hide RecordOf, Classify;
    BreaksLater(c, k);
    if !Leaves(c.venue(k)) {
      var r := RecordOf(c, orderId, k);
      BackoffIsVerdict(c, orderId, k);
      if r.verdict == BACKOFF && k < ATTEMPTS { PassEscapes(c, r.orderId, k + 1); }
    }
  }

  lemma BackoffIsVerdict(c: Call, orderId: Option<string>, k: nat)
    requires 1 <= k <= ATTEMPTS && !Leaves(c.venue(k))
    ensures RecordOf(c, orderId, k).verdict == BACKOFF <==> BacksOff(c.venue(k))
  {
    hide KeyText, Classify, OutcomeFor;
  }

  lemma RecordsNumber(c: Call, orderId: Option<string>, k: nat)
    requires 1 <= k <= ATTEMPTS && !Leaves(c.venue(k))
    ensures RecordOf(c, orderId, k).no == k && RecordOf(c, orderId, k).key == KeyText(c, orderId, k)
  {
    hide KeyText, Classify, OutcomeFor;
  }

  /** Every attempt's key ends in the attempt's own number. */
  lemma {:induction false} KeysOfPass(c: Call, orderId: Option<string>, k: nat, j: nat)
    requires 1 <= k <= ATTEMPTS && j < |PassFrom(c, orderId, k).records|
    ensures var s := PassFrom(c, orderId, k).records[j].key;
            k + j <= ATTEMPTS && s != "" && s[|s| - 1] == OneDigit(k + j)[0] && c.order.intent + "||" <= s
    decreases ATTEMPTS - k
  {
    hide RecordOf, OneDigit;
    RecordsNumber(c, orderId, k);
    KeyEnds(c, orderId, k);
    if j > 0 { KeysOfPass(c, RecordOf(c, orderId, k).orderId, k + 1, j - 1); }
  }

  lemma KeyEnds(c: Call, orderId: Option<string>, k: nat)
    requires 1 <= k <= ATTEMPTS
    ensures var s := KeyText(c, orderId, k); s != "" && s[|s| - 1] == OneDigit(k)[0] && c.order.intent + "||" <= s
  {}

  /** No two attempts of one call share a key. */
  lemma KeysAreDistinct(c: Call, i: nat, j: nat)
    requires i < j < |PassFrom(c, None, 1).records|
    ensures var x, y := PassFrom(c, None, 1).records[i].key, PassFrom(c, None, 1).records[j].key;
            && x != y && c.order.intent + "||" <= x && c.order.intent + "||" <= y
            && x[|x| - 1] == (if i == 0 then '1' else '2') && y[|y| - 1] == (if j == 1 then '2' else '3')
  {
    KeysOfPass(c, None, 1, i);
    KeysOfPass(c, None, 1, j);
  }

  /** The first attempt's key names no earlier order; without a nonce it says so. */
  lemma FirstKey(c: Call)
    ensures KeyText(c, None, 1) == c.order.intent + "||||" + c.clock(1) + (if c.nonce == "" then "||n:1" else "||" + c.nonce + ":1")
  {
    assert c.order.intent + "||" + "" + "||" == c.order.intent + "||||";
    assert "||" + "n" + ":" + "1" == "||n:1";
  }

  function ReplyOf(records: seq<AttemptRecord>): (r: Reply)
    requires records != []
  {
    var last := records[|records| - 1];
    Reply(last.verdict, last.outcome, last.code, last.orderId, last.key,
      NeedsReconcile(last.verdict), |records| > 1, false, None)
  }

  // ---- one call -----------------------------------------------------------

  /** What the adapter keeps. `wire` is what the transport saw, in order. */
  datatype AdapterState = AdapterState(duplicates: map<string, Reply>, disabled: set<(string, string)>, wire: seq<Wire>)

  function RefusedReply(reason: string): (r: Reply) {
    Reply(REFUSED_CLASS, Rejected, None, None, "", false, false, false, Some(reason))
  }

  function CachedReply(original: Reply): (r: Reply) {
    original.(resubmitted := false, cached := true, error := Some("DUPLICATE_CLIENT_ORDER_ID"))
  }

  /** The call goes past every check and into the loop. */
  predicate Enters(s: AdapterState, c: Call)
    requires Complete(c.filters)
  {
    && c.order.intent != "" && (c.order.symbol, c.order.timeframe) !in s.disabled && c.order.intent !in s.duplicates
    && Check(c.filters, c.order).Go? && c.signed && c.credentials
  }

  function Repeat(w: Wire, n: nat): (ws: seq<Wire>) { seq(n, _ => w) }

  /** What is left of a call once its pass through the loop is over. */
  function Settled(s: AdapterState, c: Call, w: Wire, p: Pass): (r: (AdapterState, CallResult)) {
    var s' := s.(wire := s.wire + Repeat(w, p.sent));
    if p.escaped || p.records == [] then (s', Escaped)
    else
      var reply := ReplyOf(p.records);
      var kept := s'.(duplicates := s'.duplicates[c.order.intent := reply]);
      if reply.code != Some(INTERVAL_UNSUPPORTED_CODE) then (kept, Returned(reply))
      else if c.order.timeframe !in c.filters.capByTimeframe then (kept, Raised("E-VAL-022"))
      else (kept.(disabled := kept.disabled + {(c.order.symbol, c.order.timeframe)}), Returned(reply))
  }

  function Submitted(s: AdapterState, c: Call): (r: (AdapterState, CallResult))
    requires Complete(c.filters)
  {
    var o := c.order;
    if o.intent == "" then (s, Raised("INTENT_ID_REQUIRED"))
    else if (o.symbol, o.timeframe) in s.disabled then (s, Returned(RefusedReply("TF_DISABLED_FOR_SYMBOL")))
    else if o.intent in s.duplicates then (s, Returned(CachedReply(s.duplicates[o.intent])))
    else
      match Check(c.filters, o)
      case Raise(reason) => (s, Raised(reason))
      case Refuse(reason) => (s, Returned(RefusedReply(reason)))
      case Go(w) =>
        if !c.signed then (s, Raised("SIGNED_NOT_ALLOWED"))
        else if !c.credentials then (s, Raised("TOOBIT_CREDENTIALS_MISSING"))
        else
          Settled(s, c, w, PassFrom(c, None, 1))
  }

  /** What one call changes. The transport is touched exactly by a call that enters, by
      at most three copies of one lawful order; the cache grows exactly by a call that
      enters and does not escape; and nothing is ever forgotten. */
  lemma SubmitLaw(s: AdapterState, c: Call)
    requires Complete(c.filters)
    ensures var (s', r) := Submitted(s, c);
            && s.wire <= s'.wire && |s'.wire| <= |s.wire| + 3 && s.disabled <= s'.disabled
            && (s'.wire != s.wire ==> Enters(s, c))
            && (forall i :: |s.wire| <= i < |s'.wire| ==> Lawful(c.filters, c.order, s'.wire[i]))
            && (forall x :: x in s.duplicates ==> x in s'.duplicates && s'.duplicates[x] == s.duplicates[x])
            && (c.order.intent in s'.duplicates <==> c.order.intent in s.duplicates || (Enters(s, c) && r != Escaped))
            && (forall x :: x in s'.duplicates && x != c.order.intent ==> x in s.duplicates)
            && (r == Escaped ==> Enters(s, c))
  {
    hide Check, Lawful, PassFrom;
    PassLaw(c, None, 1);
    if Check(c.filters, c.order).Go? { CheckedIsLawful(c.filters, c.order); }
  }

  /** A repeated intent: the transport is left alone, and the recorded result comes back
      unless its cell has been disabled in the meantime. */
  lemma RepeatedIntent(s: AdapterState, c: Call)
    requires Complete(c.filters) && c.order.intent in s.duplicates && c.order.intent != ""
    ensures var (s', r) := Submitted(s, c);
            && s' == s && r.Returned?
            && var kept := s.duplicates[c.order.intent];
               if (c.order.symbol, c.order.timeframe) in s.disabled
               then r.reply.verdict == REFUSED_CLASS && r.reply.outcome == Rejected && !r.reply.reconcile && !r.reply.cached && !r.reply.resubmitted
               else r.reply.cached && !r.reply.resubmitted && r.reply.error == Some("DUPLICATE_CLIENT_ORDER_ID")
                    && (r.reply.verdict, r.reply.outcome, r.reply.code, r.reply.orderId, r.reply.key, r.reply.reconcile)
                       == (kept.verdict, kept.outcome, kept.code, kept.orderId, kept.key, kept.reconcile)
  {}

  /** The exit of a managed position is submitted with kind "exit", which the order
      table does not know: such an order is never sent, in any state. */
  lemma ExitKindIsNeverSent(s: AdapterState, c: Call)
    requires Complete(c.filters) && c.order.kind == "exit" && c.order.intent != ""
    ensures Submitted(s, c).0 == s
    ensures c.order.intent !in s.duplicates && (c.order.symbol, c.order.timeframe) !in s.disabled ==>
              Submitted(s, c).1 == Raised("ORDER_KIND_QX")
  {
    assert c.order.kind[1] == 'x';
    assert DefaultType(c.order.kind) == None;
  }

  // ---- what a call answers ------------------------------------------------

  /** The loop stops at attempt `k`: every earlier one backed off, and this one did not or
      was the last. */
  predicate StopsAt(c: Call, from: nat, k: nat) {
    && from <= k <= ATTEMPTS && (forall j :: from <= j < k ==> BacksOff(c.venue(j)))
    && (k == ATTEMPTS || !BacksOff(c.venue(k))) && !Leaves(c.venue(k))
  }

  /** What one attempt's answer says of the order. */
  predicate Says(a: Attempt, verdict: Class, outcome: Outcome, code: Option<int>, orderId: Option<string>) {
    match a
    case Sent(Responded(http, answered, status, oid)) =>
      verdict == Classify(answered, http) && outcome == OutcomeFor(verdict, status) && code == answered && orderId == oid
    case Sent(AdapterFault) => verdict == UNMAPPED && outcome == Unknown && code == None && orderId == None
    case _ => verdict == UNKNOWN_CLASS && outcome == Unknown && code == None && orderId == None
  }

  lemma {:induction false} PassStops(c: Call, orderId: Option<string>, k: nat) returns (m: nat)
    requires 1 <= k <= ATTEMPTS && !PassFrom(c, orderId, k).escaped
    ensures StopsAt(c, k, m)
    ensures var p := PassFrom(c, orderId, k);
            && |p.records| == m + 1 - k && p.sent == m - k + (if c.venue(m).Sent? then 1 else 0)
            && var last := p.records[m - k]; Says(c.venue(m), last.verdict, last.outcome, last.code, last.orderId)
    decreases ATTEMPTS - k
  {
    hide RecordOf, Says, BacksOff;
    PassUnfolds(c, orderId, k);
    var r := RecordOf(c, orderId, k);
    RecordSays(c, orderId, k);
    hide PassFrom, Leaves;
    m := k;
    if BacksOff(c.venue(k)) && k < ATTEMPTS { m := PassStops(c, r.orderId, k + 1); }
  }

  /** One attempt, and the rest of the pass if it backed off. */
  lemma PassUnfolds(c: Call, orderId: Option<string>, k: nat)
    requires 1 <= k <= ATTEMPTS && !PassFrom(c, orderId, k).escaped
    ensures !Leaves(c.venue(k)) && (BacksOff(c.venue(k)) ==> c.venue(k).Sent?)
    ensures var r, p, sent := RecordOf(c, orderId, k), PassFrom(c, orderId, k), if c.venue(k).Sent? then 1 else 0;
            if BacksOff(c.venue(k)) && k < ATTEMPTS
            then var more := PassFrom(c, r.orderId, k + 1); p == Pass([r] + more.records, sent + more.sent, more.escaped)
            else p == Pass([r], sent, false)
  {
    BackoffIsVerdict(c, orderId, k);
    SourceOf(c, orderId, k);
    hide RecordOf, Classify;
  }

  lemma RecordSays(c: Call, orderId: Option<string>, k: nat)
    requires 1 <= k <= ATTEMPTS && !Leaves(c.venue(k))
    ensures var r := RecordOf(c, orderId, k); Says(c.venue(k), r.verdict, r.outcome, r.code, r.orderId)
  {
    hide KeyText, Classify, OutcomeFor;
  }

  /** The reply to a call that enters and is not broken off is the answer to its last
      attempt; the transport saw one copy for each attempt that had a token; and its cell
      is disabled exactly when that answer says the interval is unsupported. */
  lemma ReplyIsLastAnswer(s: AdapterState, c: Call) returns (k: nat)
    requires Complete(c.filters) && Enters(s, c) && !BrokenOff(c)
    ensures StopsAt(c, 1, k)
    ensures var (s', r) := Submitted(s, c);
            && c.order.intent in s'.duplicates
            && var reply := s'.duplicates[c.order.intent];
               && Says(c.venue(k), reply.verdict, reply.outcome, reply.code, reply.orderId)
               && reply.resubmitted == (k > 1) && !reply.cached && reply.reconcile == (reply.verdict in {UNKNOWN_CLASS, UNMAPPED})
               && |s'.wire| == |s.wire| + k - 1 + (if c.venue(k).Sent? then 1 else 0)
               && (reply.code != Some(-1120) ==> r == Returned(reply) && s'.disabled == s.disabled)
               && (reply.code == Some(-1120) ==>
                     if c.order.timeframe in c.filters.capByTimeframe
                     then r == Returned(reply) && s'.disabled == s.disabled + {(c.order.symbol, c.order.timeframe)}
                     else r == Raised("E-VAL-022") && s'.disabled == s.disabled)
  {
    PassEscapes(c, None, 1);
    k := PassStops(c, None, 1);
    EnteredSettles(s, c);
    hide Submitted, Check, PassFrom, Says, StopsAt, Enters, BrokenOff;
    SettledReply(s, c, Check(c.filters, c.order).wire, PassFrom(c, None, 1));
  }

  lemma EnteredSettles(s: AdapterState, c: Call)
    requires Complete(c.filters) && Enters(s, c)
    ensures Check(c.filters, c.order).Go? && Submitted(s, c) == Settled(s, c, Check(c.filters, c.order).wire, PassFrom(c, None, 1))
  {
    hide Check, PassFrom, Settled;
  }

  lemma SettledReply(s: AdapterState, c: Call, w: Wire, p: Pass)
    requires !p.escaped && p.records != []
    ensures var (s', r) := Settled(s, c, w, p);
            var last := p.records[|p.records| - 1];
            && c.order.intent in s'.duplicates && |s'.wire| == |s.wire| + p.sent
            && var reply := s'.duplicates[c.order.intent];
               && reply.verdict == last.verdict && reply.outcome == last.outcome && reply.code == last.code && reply.orderId == last.orderId
               && reply.resubmitted == (|p.records| > 1) && !reply.cached && reply.reconcile == (reply.verdict in {UNKNOWN_CLASS, UNMAPPED})
               && (reply.code != Some(-1120) ==> r == Returned(reply) && s'.disabled == s.disabled)
               && (reply.code == Some(-1120) ==>
                     if c.order.timeframe in c.filters.capByTimeframe
                     then r == Returned(reply) && s'.disabled == s.disabled + {(c.order.symbol, c.order.timeframe)}
                     else r == Raised("E-VAL-022") && s'.disabled == s.disabled)
  {}

  // ---- runs of non-overlapping calls --------------------------------------

  function StateAfter(s: AdapterState, calls: seq<Call>): (r: AdapterState)
    requires forall i :: 0 <= i < |calls| ==> Complete(calls[i].filters)
    decreases |calls|
  {
    if calls == [] then s else Submitted(StateAfter(s, calls[..|calls| - 1]), calls[|calls| - 1]).0
  }

  predicate EntersAt(s: AdapterState, calls: seq<Call>, i: nat)
    requires i < |calls| && forall k :: 0 <= k < |calls| ==> Complete(calls[k].filters)
  {
    Enters(StateAfter(s, calls[..i]), calls[i])
  }

  lemma {:induction false} RememberedUntil(s: AdapterState, calls: seq<Call>, i: nat, j: nat, x: string)
    requires forall k :: 0 <= k < |calls| ==> Complete(calls[k].filters)
    requires i <= j <= |calls| && x in StateAfter(s, calls[..i]).duplicates
    ensures x in StateAfter(s, calls[..j]).duplicates
    decreases j
  {
    hide Submitted, Complete;
    if i < j {
      RememberedUntil(s, calls, i, j - 1, x);
      SubmitLaw(StateAfter(s, calls[..j - 1]), calls[j - 1]);
      assert calls[..j][..j - 1] == calls[..j - 1];
    }
  }

  /** Every refusal that does not depend on what the adapter keeps. */
  predicate Fit(c: Call)
    requires Complete(c.filters)
  {
    c.order.intent != "" && Check(c.filters, c.order).Go? && c.signed && c.credentials
  }

  /** A call that enters ends with an exception out of the loop exactly when the world
      breaks it off, and then the same call enters again at once. */
  lemma EscapedEntersAgain(s: AdapterState, c: Call)
    requires Complete(c.filters) && Enters(s, c)
    ensures Submitted(s, c).1 == Escaped <==> BrokenOff(c)
    ensures BrokenOff(c) ==> Enters(Submitted(s, c).0, c)
    ensures !BrokenOff(c) ==> c.order.intent in Submitted(s, c).0.duplicates
  {
    hide Check, PassFrom, BrokenOffFrom, ReplyOf, Repeat;
    PassLaw(c, None, 1);
    PassEscapes(c, None, 1);
  }

  ghost predicate AllComplete(calls: seq<Call>) { forall k :: 0 <= k < |calls| ==> Complete(calls[k].filters) }

  /** Some earlier call of the intent entered and was not broken off. */
  ghost predicate Settles(s: AdapterState, calls: seq<Call>, j: nat, x: string)
    requires AllComplete(calls) && j <= |calls|
  {
    exists i: nat :: i < j && EntersAt(s, calls, i) && calls[i].order.intent == x && !BrokenOff(calls[i])
  }

  lemma {:induction false} RememberedIfSettled(s: AdapterState, calls: seq<Call>, j: nat, x: string)
    requires AllComplete(calls) && j <= |calls|
    ensures x in StateAfter(s, calls[..j]).duplicates <==> x in s.duplicates || Settles(s, calls, j, x)
    decreases j
  {
    hide Submitted, Complete, BrokenOff, Enters;
    if j > 0 {
      var t, c := StateAfter(s, calls[..j - 1]), calls[j - 1];
      RememberedIfSettled(s, calls, j - 1, x);
      SubmitLaw(t, c);
      assert calls[..j][..j - 1] == calls[..j - 1] && EntersAt(s, calls, j - 1) == Enters(t, c);
      if EntersAt(s, calls, j - 1) { EscapedEntersAgain(t, c); }
      if Settles(s, calls, j - 1, x) {
        var i: nat :| i < j - 1 && EntersAt(s, calls, i) && calls[i].order.intent == x && !BrokenOff(calls[i]);
        assert i < j;
      }
    }
  }

  /** Over any run of calls, a call enters the transport loop exactly when it is fit, its
      cell is not disabled, its intent was not recorded before the run, and every earlier
      call of the intent that entered was broken off. */
  lemma WhenItEnters(s: AdapterState, calls: seq<Call>, j: nat)
    requires AllComplete(calls) && j < |calls|
    ensures var c := calls[j];
            EntersAt(s, calls, j) <==>
              && Fit(c) && (c.order.symbol, c.order.timeframe) !in StateAfter(s, calls[..j]).disabled
              && c.order.intent !in s.duplicates && !Settles(s, calls, j, c.order.intent)
  {
    hide Check, Complete, Settles, StateAfter;
    RememberedIfSettled(s, calls, j, calls[j].order.intent);
  }

  ghost predicate Reenters(s: AdapterState, calls: seq<Call>, x: string)
    requires AllComplete(calls)
  {
    exists j: nat :: j < |calls| && EntersAt(s, calls, j) && calls[j].order.intent == x
  }

  /** After a call that entered, its intent can enter the transport loop again in some
      later run if and only if the world broke the call off; otherwise once is for all. */
  lemma EntersOnce(s: AdapterState, c: Call)
    requires Complete(c.filters) && Enters(s, c)
    ensures BrokenOff(c) <==>
              exists later: seq<Call> :: AllComplete(later) && Reenters(Submitted(s, c).0, later, c.order.intent)
  {
    hide Submitted, Complete, Check, BrokenOff;
    var s' := Submitted(s, c).0;
    EscapedEntersAgain(s, c);
    if BrokenOff(c) {
      assert [c][..0] == [];
      assert EntersAt(s', [c], 0) && [c][0].order.intent == c.order.intent;
      assert AllComplete([c]) && Reenters(s', [c], c.order.intent);
    } else if later: seq<Call> :| AllComplete(later) && Reenters(s', later, c.order.intent) {
      var j: nat :| j < |later| && EntersAt(s', later, j) && later[j].order.intent == c.order.intent;
      assert later[..0] == [];
      RememberedUntil(s', later, 0, j, c.order.intent);
    }
  }

  const ONE := map["S" := 1.0]

  const CUT_OFF := Call(
    Order("a", "S", "1h", LONG, Phase.Entry, "entry", None, 1.0, 1.0, None, None),
    Filters(ONE, ONE, ONE, ONE, map[]), true, true, "", _ => "t", _ => Sent(Escapes))

  /** One intent on the wire twice: its first call is cut off after it was sent, and the
      caller tries again. */
  lemma SentTwice()
    ensures Complete(CUT_OFF.filters)
    ensures var s := AdapterState(map[], {}, []);
            var s' := Submitted(s, CUT_OFF).0;
            Enters(s, CUT_OFF) && Enters(s', CUT_OFF) && |Submitted(s', CUT_OFF).0.wire| == 2
  {
    var o := CUT_OFF.order;
    assert |Upper("LIMIT")| == 5 && Lattice(1.0, 1.0) == 1.0;
    assert Check(CUT_OFF.filters, o).Go?;
    hide Check;
    var w := Check(CUT_OFF.filters, o).wire;
    assert PassFrom(CUT_OFF, None, 1) == Pass([], 1, true);
    assert |Repeat(w, 1)| == 1;
  }

  /** The attempts a pass leaves in the audit trail: all of them, or none if an exception
      left the loop. */
  function Audited(p: Pass): (records: seq<AttemptRecord>) { if p.escaped then [] else p.records }

  // ---- the adapter object -------------------------------------------------

  class ToobitAdapter {
    var duplicates: map<string, Reply>
    var disabled: set<(string, string)>
    var wire: seq<Wire>
    var audit: seq<AttemptRecord>

    constructor ()
      ensures Kept() == AdapterState(map[], {}, []) && audit == []
    {
      duplicates, disabled, wire, audit := map[], {}, [], [];
    }

    function Kept(): (s: AdapterState)
      reads this
    {
      AdapterState(duplicates, disabled, wire)
    }

    method SubmitOrder(c: Call) returns (r: CallResult)
      requires Complete(c.filters)
      modifies this
      ensures (Kept(), r) == Submitted(old(Kept()), c)
      ensures audit == old(audit) + if Enters(old(Kept()), c) then Audited(PassFrom(c, None, 1)) else []
    {
      hide Check, RecordOf, PassFrom;
      var o := c.order;
      if o.intent == "" { return Raised("INTENT_ID_REQUIRED"); }
      if (o.symbol, o.timeframe) in disabled { return Returned(RefusedReply("TF_DISABLED_FOR_SYMBOL")); }
      if o.intent in duplicates { return Returned(CachedReply(duplicates[o.intent])); }
      match Check(c.filters, o) {
        case Raise(reason) => return Raised(reason);
        case Refuse(reason) => return Returned(RefusedReply(reason));
        case Go(w) =>
          if !c.signed { return Raised("SIGNED_NOT_ALLOWED"); }
          if !c.credentials { return Raised("TOOBIT_CREDENTIALS_MISSING"); }
          r := Execute(c, w);
      }
    }

    method Execute(c: Call, w: Wire) returns (r: CallResult)
      modifies this
      ensures (Kept(), r) == Settled(old(Kept()), c, w, PassFrom(c, None, 1))
      ensures audit == old(audit) + Audited(PassFrom(c, None, 1))
    {
      hide Check, RecordOf, PassFrom, ReplyOf;
      var p := Attempts(c, w);
      if p.escaped || p.records == [] { return Escaped; }
      audit := audit + p.records;
      var reply := ReplyOf(p.records);
      duplicates := duplicates[c.order.intent := reply];
      if reply.code == Some(INTERVAL_UNSUPPORTED_CODE) {
        if c.order.timeframe !in c.filters.capByTimeframe { return Raised("E-VAL-022"); }
        disabled := disabled + {(c.order.symbol, c.order.timeframe)};
      }
      return Returned(reply);
    }

    method Attempts(c: Call, w: Wire) returns (p: Pass)
      modifies this`wire
      ensures p == PassFrom(c, None, 1) && wire == old(wire) + Repeat(w, p.sent)
    {
      hide RecordOf, Repeat, Follows;
      p := Pass([], 0, false);
      var orderId: Option<string> := None;
      var no: nat := 1;
      ghost var whole := PassFrom(c, None, 1);
      ghost var rest := whole;
      NoneYet(w, whole);
      while true
        invariant 1 <= no <= ATTEMPTS && wire == old(wire) + Repeat(w, p.sent) && !p.escaped
        invariant rest == PassFrom(c, orderId, no) && Follows(p, rest, whole)
        decreases ATTEMPTS - no
      {
        var attempt := c.venue(no);
        var sent := if attempt.Sent? then 1 else 0;
        if attempt.Sent? {
          wire := wire + [w];
          OneMore(w, p.sent, old(wire));
        }
        if Leaves(attempt) {
          Ends(p, rest, whole);
          p := p.(sent := p.sent + sent, escaped := true);
          return;
        }
        var record := RecordOf(c, orderId, no);
        SourceOf(c, orderId, no);
        if record.verdict != BACKOFF || no == ATTEMPTS {
          Ends(p, rest, whole);
          p := p.(records := p.records + [record], sent := p.sent + sent);
          return;
        }
        ghost var more := PassFrom(c, record.orderId, no + 1);
        GoesOn(p, rest, whole, record, sent, more);
        p := p.(records := p.records + [record], sent := p.sent + sent);
        orderId := record.orderId;
        no := no + 1;
        rest := more;
      }
    }
  }

  lemma SourceOf(c: Call, orderId: Option<string>, k: nat)
    requires 1 <= k <= ATTEMPTS && !Leaves(c.venue(k))
    ensures RecordOf(c, orderId, k).source == if c.venue(k).Sent? then TRANSPORT else RATE_LIMIT
  {
    hide KeyText, Classify, OutcomeFor;
  }

  /** What is done and what is to come make the whole. */
  predicate Follows(done: Pass, rest: Pass, whole: Pass) {
    whole == Pass(done.records + rest.records, done.sent + rest.sent, rest.escaped)
  }

  lemma Ends(done: Pass, rest: Pass, whole: Pass)
    requires Follows(done, rest, whole)
    ensures whole == Pass(done.records + rest.records, done.sent + rest.sent, rest.escaped)
    ensures rest.records == [] ==> whole.records == done.records
  {}

  lemma GoesOn(done: Pass, rest: Pass, whole: Pass, r: AttemptRecord, sent: nat, more: Pass)
    requires Follows(done, rest, whole) && rest == Pass([r] + more.records, sent + more.sent, more.escaped)
    ensures Follows(done.(records := done.records + [r], sent := done.sent + sent), more, whole)
  {
    assert done.records + ([r] + more.records) == (done.records + [r]) + more.records;
  }

  lemma NoneYet(w: Wire, whole: Pass)
    ensures Repeat(w, 0) == [] && Follows(Pass([], 0, false), whole, whole)
  {
    assert [] + whole.records == whole.records;
  }

  lemma OneMore(w: Wire, n: nat, before: seq<Wire>)
    ensures before + Repeat(w, n) + [w] == before + Repeat(w, n + 1)
  {
    assert Repeat(w, n) + [w] == Repeat(w, n + 1);
  }
}
