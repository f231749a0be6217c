/** The per-endpoint token bucket: what any window of time can let through. */
module TokenBucket {
  datatype Bucket = Bucket(capacity: real, rate: real, tokens: real, last: real)

  predicate Sane(b: Bucket) { 0.0 <= b.tokens <= b.capacity && b.rate > 0.0 }

  function Min(a: real, b: real): (m: real) { if a <= b then a else b }

  /** Tokens that some time brings at some rate. */
  function Times(t: real, rate: real): (x: real) { t * rate }

  function Refilled(b: Bucket, now: real): (r: Bucket) {
    var elapsed := if now > b.last then now - b.last else 0.0;
    b.(tokens := Min(b.capacity, b.tokens + Times(elapsed, b.rate)), last := now)
  }

  /** A look at the bucket: a request that takes a token if there is one, or a mere
      reading of its state. */
  datatype Look = Look(now: real, request: bool)

  predicate Takes(b: Bucket, l: Look) { l.request && Refilled(b, l.now).tokens >= 1.0 }

  function Looked(b: Bucket, l: Look): (r: Bucket) {
    var f := Refilled(b, l.now);
    if Takes(b, l) then f.(tokens := f.tokens - 1.0) else f
  }

  function Final(b: Bucket, ls: seq<Look>): (r: Bucket)
    decreases ls
  {
    if ls == [] then b else Final(Looked(b, ls[0]), ls[1..])
  }

  /** How many tokens a run of looks takes. */
  function Taken(b: Bucket, ls: seq<Look>): (n: nat)
    decreases ls
  {
    if ls == [] then 0 else (if Takes(b, ls[0]) then 1 else 0) + Taken(Looked(b, ls[0]), ls[1..])
  }

  /** The clock does not go back, and stays within the window. */
  predicate Forward(from: real, ls: seq<Look>, to: real)
    decreases ls
  {
    if ls == [] then from <= to else from <= ls[0].now && Forward(ls[0].now, ls[1..], to)
  }

  lemma RefillLaw(b: Bucket, now: real)
    requires Sane(b)
    ensures Sane(Refilled(b, now)) && b.tokens <= Refilled(b, now).tokens
    ensures Refilled(b, now).tokens <= b.tokens + Times(if now > b.last then now - b.last else 0.0, b.rate)
  {
    Positive(0.0, b.rate);
    if now > b.last { Positive(now - b.last, b.rate); }
  }

  lemma Positive(x: real, y: real)
    requires x >= 0.0 && y >= 0.0
    ensures Times(x, y) >= 0.0
  {}

  lemma Distribute(a: real, b: real, k: real)
    ensures Times(a + b, k) == Times(a, k) + Times(b, k) && Times(0.0, k) == 0.0
  {}

  /** Splitting a capped refill into two changes nothing. */
  lemma RefillSplits(b: Bucket, mid: real, now: real)
    requires Sane(b) && b.last <= mid <= now
    ensures Refilled(Refilled(b, mid), now) == Refilled(b, now)
  {
    hide Times;
    Distribute(mid - b.last, now - mid, b.rate);
    Positive(now - mid, b.rate);
    assert mid - b.last + (now - mid) == now - b.last;
  }

  /** Tokens stay within the capacity whatever the clock does. */
  lemma {:induction false} StaysSane(b: Bucket, ls: seq<Look>)
    requires Sane(b)
    ensures Sane(Final(b, ls))
    decreases ls
  {
    hide Refilled, Times;
    if ls != [] {
      RefillLaw(b, ls[0].now);
      StaysSane(Looked(b, ls[0]), ls[1..]);
    }
  }

  /** How far the clock moved forward in all, going back as often as it likes. */
  function Advance(from: real, ls: seq<Look>): (x: real)
    ensures x >= 0.0
    decreases ls
  {
    if ls == [] then 0.0 else (if ls[0].now > from then ls[0].now - from else 0.0) + Advance(ls[0].now, ls[1..])
  }

  /** Conservation under any clock: what is taken and what is left came from what was there
      and from the clock's moves forward. */
  lemma {:induction false} Conserved(b: Bucket, ls: seq<Look>)
    requires Sane(b)
    ensures Taken(b, ls) as real + Final(b, ls).tokens <= b.tokens + Times(Advance(b.last, ls), b.rate)
    decreases ls
  {
    hide Refilled, Times;
    if ls == [] {
      Positive(0.0, b.rate);
    } else {
      var l := ls[0];
      var c := Looked(b, l);
      var step := if l.now > b.last then l.now - b.last else 0.0;
      RefillLaw(b, l.now);
      RefillMovesClock(b, l.now);
      Conserved(c, ls[1..]);
      Distribute(step, Advance(l.now, ls[1..]), b.rate);
    }
  }

  /** A clock that does not go back advances by no more than the window. */
  lemma {:induction false} ForwardAdvance(from: real, ls: seq<Look>, to: real)
    requires Forward(from, ls, to)
    ensures Advance(from, ls) <= to - from
    decreases ls
  {
    if ls != [] { ForwardAdvance(ls[0].now, ls[1..], to); }
  }

  /** Whatever the clock does, a run of looks lets through at most the capacity and what
      the clock's moves forward refill. */
  lemma AnyClockBound(b: Bucket, ls: seq<Look>)
    requires Sane(b)
    ensures Taken(b, ls) as real <= b.capacity + Times(Advance(b.last, ls), b.rate)
  {
    hide Taken, Final, Advance, Times;
    StaysSane(b, ls);
    Conserved(b, ls);
  }

  lemma TimesGrows(a: real, b: real, k: real)
    requires a <= b && k >= 0.0
    ensures Times(a, k) <= Times(b, k)
  {
    Positive(b - a, k);
    Distribute(a, b - a, k);
  }

  lemma RefillMovesClock(b: Bucket, now: real)
    ensures Refilled(b, now).last == now && Refilled(b, now).rate == b.rate && Refilled(b, now).capacity == b.capacity
  {}

  /** A window (t1, t2] lets through at most the capacity and what the time refills. */
  lemma WindowBound(b: Bucket, ls: seq<Look>, t1: real, t2: real)
    requires Sane(b) && b.last <= t1 && Forward(t1, ls, t2)
    ensures Taken(b, ls) as real <= b.capacity + Times(t2 - t1, b.rate)
  {
    var c := Refilled(b, t1);
    RefillLaw(b, t1);
    RefillMovesClock(b, t1);
    hide Refilled, Times;
    StaysSane(c, ls);
    if ls != [] {
      RefillSplits(b, t1, ls[0].now);
      assert Taken(c, ls) == Taken(b, ls);
    }
    ForwardAdvance(t1, ls, t2);
    hide Taken, Final, Forward, Advance;
    AnyClockBound(c, ls);
    TimesGrows(Advance(t1, ls), t2 - t1, b.rate);
  }

  /** With a clock that goes back and forth the bound by the window fails: three tokens in
      one unit of time from a bucket of one, at one per unit. The clock moved forward by
      three. */
  lemma ClockMustNotGoBack()
    ensures var b := Bucket(1.0, 1.0, 1.0, 0.0);
            var ls := [Look(1.0, true), Look(0.0, false), Look(1.0, true), Look(0.0, false), Look(1.0, true)];
            Sane(b) && Taken(b, ls) == 3 && 3.0 > b.capacity + Times(1.0 - 0.0, b.rate)
  {
    var b := Bucket(1.0, 1.0, 1.0, 0.0);
    var empty0, empty1 := Bucket(1.0, 1.0, 0.0, 0.0), Bucket(1.0, 1.0, 0.0, 1.0);
    var ls := [Look(1.0, true), Look(0.0, false), Look(1.0, true), Look(0.0, false), Look(1.0, true)];
    assert Looked(b, ls[0]) == empty1 && Looked(empty1, ls[1]) == empty0 && Looked(empty0, ls[2]) == empty1;
    assert Taken(empty0, ls[4..]) == 1;
    assert ls[1..][1..] == ls[2..] && ls[2..][1..] == ls[3..] && ls[3..][1..] == ls[4..];
    assert Taken(empty1, ls[3..]) == 1;
    assert Taken(empty0, ls[2..]) == 2;
    assert Taken(empty1, ls[1..]) == 2;
  }

  // ---- the bucket object --------------------------------------------------

  class EndpointBucket {
    var bucket: Bucket
    var queued: nat

    constructor (capacity: real, rate: real, now: real)
      requires capacity >= 0.0 && rate > 0.0
      ensures bucket == Bucket(capacity, rate, capacity, now) && Sane(bucket) && queued == 0
    {
      bucket, queued := Bucket(capacity, rate, capacity, now), 0;
    }

    method Refill(now: real)
      modifies this`bucket
      ensures bucket == Refilled(old(bucket), now)
    {
      var elapsed := if now > bucket.last then now - bucket.last else 0.0;
      bucket := bucket.(tokens := Min(bucket.capacity, bucket.tokens + Times(elapsed, bucket.rate)), last := now);
    }

    /** Takes a token now, or waits: `clock(k)` is what the clock reads after the k-th
        sleep, and the deadline falls after `sleeps` of them. */
    method Acquire(now: real, clock: nat -> real, sleeps: nat) returns (acquired: bool, ghost looks: seq<Look>)
      requires Sane(bucket)
      modifies this
      ensures Sane(bucket) && bucket == Final(old(bucket), looks) && queued == old(queued)
      ensures 1 <= |looks| <= sleeps + 1 && forall i :: 0 <= i < |looks| ==> looks[i] == Look(if i == 0 then now else clock(i - 1), true)
      ensures acquired <==> Taken(old(bucket), looks) == 1
      ensures !acquired ==> Taken(old(bucket), looks) == 0 && |looks| == sleeps + 1
    {
      hide Refilled, Looked, Takes;
      ghost var b := bucket;
      RefillLaw(bucket, now);
      Refill(now);
      looks := [Look(now, true)];
      OneLook(b, Look(now, true));
      acquired := TakeIfAny();
      if acquired { return; }
      queued := queued + 1;
      var k := 0;
      while k < sleeps
        invariant 0 <= k <= sleeps && |looks| == k + 1 && queued == old(queued) + 1 && Sane(bucket)
        invariant bucket == Final(b, looks) && Taken(b, looks) == 0
        invariant forall i :: 0 <= i < |looks| ==> looks[i] == Look(if i == 0 then now else clock(i - 1), true)
      {
        ghost var l := Look(clock(k), true);
        LookAgain(b, looks, l);
        OneLook(bucket, l);
        RefillLaw(bucket, clock(k));
        Refill(clock(k));
        looks := looks + [l];
        acquired := TakeIfAny();
        if acquired { break; }
        k := k + 1;
      }
      queued := queued - 1;
    }

    method TakeIfAny() returns (taken: bool)
      modifies this`bucket
      ensures taken == (old(bucket).tokens >= 1.0)
      ensures bucket == if taken then old(bucket).(tokens := old(bucket).tokens - 1.0) else old(bucket)
    {
      taken := bucket.tokens >= 1.0;
      if taken { bucket := bucket.(tokens := bucket.tokens - 1.0); }
    }
  }

  lemma OneLook(b: Bucket, l: Look)
    requires l.request
    ensures Takes(b, l) == (Refilled(b, l.now).tokens >= 1.0)
    ensures Looked(b, l) == if Takes(b, l) then Refilled(b, l.now).(tokens := Refilled(b, l.now).tokens - 1.0) else Refilled(b, l.now)
    ensures Final(b, [l]) == Looked(b, l) && Taken(b, [l]) == if Takes(b, l) then 1 else 0
  {}

  // ---- what gets through --------------------------------------------------

  /** A request takes a token exactly when one is there, with what the time has brought. */
  lemma WhenItTakes(b: Bucket, l: Look)
    ensures Takes(b, l) <==> l.request && 1.0 <= b.capacity && 1.0 <= b.tokens + Times(if l.now > b.last then l.now - b.last else 0.0, b.rate)
    ensures Looked(b, l).last == l.now
  {}

  /** Requests that leave the bucket the time of one token between them all get through. */
  predicate Spaced(from: real, rate: real, ls: seq<Look>)
    decreases ls
  {
    ls == [] || (ls[0].request && from <= ls[0].now && Times(ls[0].now - from, rate) >= 1.0 && Spaced(ls[0].now, rate, ls[1..]))
  }

  lemma {:induction false} SpacedGoThrough(b: Bucket, ls: seq<Look>)
    requires Sane(b) && b.capacity >= 1.0 && Spaced(b.last, b.rate, ls)
    ensures Taken(b, ls) == |ls|
    decreases ls
  {
    hide Refilled, Times, Takes;
    if ls != [] {
      var l := ls[0];
      TimesZero(b.rate);
      WhenItTakes(b, l);
      RefillLaw(b, l.now);
      RefillMovesClock(b, l.now);
      TakesIsEnough(b, l);
      SpacedGoThrough(Looked(b, l), ls[1..]);
    }
  }

  lemma TimesZero(rate: real)
    ensures Times(0.0, rate) == 0.0
  {}

  lemma TakesIsEnough(b: Bucket, l: Look)
    ensures Takes(b, l) ==> Refilled(b, l.now).tokens >= 1.0
  {}

  /** A burst takes as many tokens as the bucket holds, and not one more. */
  lemma {:induction false} BurstGoesThrough(b: Bucket, n: nat)
    requires Sane(b)
    ensures Taken(b, seq(n, _ => Look(b.last, true))) == if n as real <= b.tokens then n else b.tokens.Floor
    decreases n
  {
    var ls := seq(n, _ => Look(b.last, true));
    if n > 0 {
      var l, c := Look(b.last, true), Looked(b, Look(b.last, true));
      TimesZero(b.rate);
      assert ls[0] == l && ls[1..] == seq(n - 1, _ => Look(b.last, true));
      assert c.last == b.last;
      if b.tokens >= 1.0 {
        BurstGoesThrough(c, n - 1);
      } else {
        assert c == b;
        BurstGoesThrough(b, n - 1);
      }
    }
  }

  lemma {:induction false} LookAgain(b: Bucket, ls: seq<Look>, l: Look)
    ensures Final(b, ls + [l]) == Looked(Final(b, ls), l)
    ensures Taken(b, ls + [l]) == Taken(b, ls) + (if Takes(Final(b, ls), l) then 1 else 0)
    decreases ls
  {
    hide Looked, Takes;
    if ls == [] {
      assert [] + [l] == [l];
    } else {
      LookAgain(Looked(b, ls[0]), ls[1..], l);
      assert (ls + [l])[1..] == ls[1..] + [l];
    }
  }
}
