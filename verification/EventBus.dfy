/** The priority bus: nothing critical is lost, and what the shared lane loses is the
    oldest, counted, and in order. */
module EventBus {
  datatype Priority = P0 | P1 | P2 | P3

  datatype Event = Event(id: string, priority: Priority)

  datatype Step = Publish(event: Event) | Pick

  /** The lanes, with the history of what left each of them. */
  datatype Bus = Bus(
    p1: seq<Event>, shared: seq<Event>, inline: seq<Event>, pickedP1: seq<Event>,
    removed: seq<Event>, evicted: seq<Event>, counter: nat)

  const EMPTY := Bus([], [], [], [], [], [], 0)

  predicate IsP0(e: Event) { e.priority == P0 }

  predicate IsP1(e: Event) { e.priority == P1 }

  predicate IsShared(e: Event) { e.priority == P2 || e.priority == P3 }

  /** The oldest shared event goes, if there is one. */
  function Evict(b: Bus): (r: Bus) {
    if b.shared == [] then b
    else b.(shared := b.shared[1..], removed := b.removed + [b.shared[0]], evicted := b.evicted + [b.shared[0]], counter := b.counter + 1)
  }

  predicate Full(b: Bus, bound: int) { bound > 0 && |b.shared| >= bound }

  function Next(b: Bus, step: Step, bound: int): (r: Bus) {
    match step
    case Publish(e) =>
      if e.priority == P0 then b.(inline := b.inline + [e])
      else if e.priority == P1 then
        var b' := if |b.p1| >= bound then Evict(b) else b;
        b'.(p1 := b'.p1 + [e])
      else
        var b' := if Full(b, bound) then Evict(b) else b;
        b'.(shared := b'.shared + [e])
    case Pick =>
      if b.p1 != [] then b.(p1 := b.p1[1..], pickedP1 := b.pickedP1 + [b.p1[0]])
      else if b.shared != [] then b.(shared := b.shared[1..], removed := b.removed + [b.shared[0]])
      else b
  }

  function After(steps: seq<Step>, bound: int): (b: Bus)
    decreases |steps|
  {
    if steps == [] then EMPTY else Next(After(steps[..|steps| - 1], bound), steps[|steps| - 1], bound)
  }

  /** The published events of one lane, in order. */
  function Published(steps: seq<Step>, lane: Event -> bool): (es: seq<Event>)
    decreases |steps|
  {
    if steps == [] then []
    else
      var s := steps[|steps| - 1];
      Published(steps[..|steps| - 1], lane) + (if s.Publish? && lane(s.event) then [s.event] else [])
  }

  /** One step, seen by each lane. */
  lemma StepLaw(b: Bus, step: Step, bound: int)
    ensures var b' := Next(b, step, bound);
            && b'.pickedP1 + b'.p1 == b.pickedP1 + b.p1 + (if step.Publish? && step.event.priority == P1 then [step.event] else [])
            && b'.removed + b'.shared == b.removed + b.shared + (if step.Publish? && IsShared(step.event) then [step.event] else [])
            && b'.inline == b.inline + (if step.Publish? && step.event.priority == P0 then [step.event] else [])
            && (|b.evicted| == b.counter ==> |b'.evicted| == b'.counter)
            && (bound > 0 && |b.shared| <= bound ==> |b'.shared| <= bound)
            && (step == Pick && b'.removed != b.removed ==> b.p1 == [])
  {
    EvictLaw(b);
    var b' := Next(b, step, bound);
    if step == Pick && b.p1 != [] { Shift(b.pickedP1, b.p1); }
    if step == Pick && b.p1 == [] && b.shared != [] { Shift(b.removed, b.shared); }
  }

  lemma EvictLaw(b: Bus)
    ensures var r := Evict(b);
            && r.removed + r.shared == b.removed + b.shared && r.p1 == b.p1 && r.pickedP1 == b.pickedP1 && r.inline == b.inline
            && (b.shared != [] ==> |r.shared| == |b.shared| - 1) && (|b.evicted| == b.counter ==> |r.evicted| == r.counter)
  {
    if b.shared != [] { Shift(b.removed, b.shared); }
  }

  lemma Shift(gone: seq<Event>, lane: seq<Event>)
    requires lane != []
    ensures (gone + [lane[0]]) + lane[1..] == gone + lane
  {}

  /** In every run: each P0 event was delivered inline; the P1 events picked, then the P1
      lane, are the published P1 events, none lost; the shared events that left, then the
      shared lane, are the published P2 and P3 events in order; the counter counts the
      evictions; and the shared lane keeps its bound. */
  lemma {:induction false} RunLaw(steps: seq<Step>, bound: int)
    ensures var b := After(steps, bound);
            && b.inline == Published(steps, IsP0)
            && b.pickedP1 + b.p1 == Published(steps, IsP1)
            && b.removed + b.shared == Published(steps, IsShared)
            && |b.evicted| == b.counter
            && (bound > 0 ==> |b.shared| <= bound)
    decreases |steps|
  {
    hide Next;
    if steps != [] {
      RunLaw(steps[..|steps| - 1], bound);
      StepLaw(After(steps[..|steps| - 1], bound), steps[|steps| - 1], bound);
    }
  }

  /** An eviction takes the oldest shared event, and only to make room: for a critical
      event at the governed bound, or for a shared one when the lane is full. */
  lemma EvictionsMakeRoom(b: Bus, step: Step, bound: int)
    ensures var b' := Next(b, step, bound);
            b'.evicted != b.evicted ==>
              step.Publish? && b.shared != [] && b'.evicted == b.evicted + [b.shared[0]]
              && (if step.event.priority == P1 then |b.p1| >= bound else IsShared(step.event) && |b.shared| >= bound > 0)
  {}

  // ---- the bus object -----------------------------------------------------

  const KEPT := 4096

  class PriorityBus {
    const bound: int
    var p1: seq<Event>
    var shared: seq<Event>
    /** The newest eviction records; older ones fall out. */
    var evictions: seq<Event>
    var evicted: nat
    ghost var history: Bus

    ghost predicate Valid()
      reads this
    {
      && history.p1 == p1 && history.shared == shared && history.counter == evicted == |history.evicted|
      && evictions == if evicted <= 4096 then history.evicted else history.evicted[evicted - 4096..]
    }

    constructor (bound: int)
      ensures Valid() && history == EMPTY && this.bound == bound
    {
      this.bound := bound;
      p1, shared, evictions, evicted := [], [], [], 0;
      history := EMPTY;
    }

    method Publish(e: Event)
      requires Valid()
      modifies this
      ensures Valid() && history == Next(old(history), Step.Publish(e), bound)
    {
      ghost var before := history;
      if e.priority == P0 {
        history := Next(before, Step.Publish(e), bound);
        return;
      }
      if e.priority == P1 {
        if |p1| >= bound { EvictShared(); }
        p1 := p1 + [e];
      } else {
        if bound > 0 && |shared| >= bound { EvictShared(); }
        shared := shared + [e];
      }
      history := Next(before, Step.Publish(e), bound);
    }

    method EvictShared()
      requires Valid()
      modifies this
      ensures Valid() && history == Evict(old(history)) && p1 == old(p1)
    {
      if shared == [] { return; }
      assert KEPT == 4096;
      evictions := evictions + [shared[0]];
      if |evictions| > KEPT { evictions := evictions[1..]; }
      evicted := evicted + 1;
      history := Evict(history);
      shared := shared[1..];
    }

    method Dispatch() returns (picked: seq<Event>)
      requires Valid()
      modifies this
      ensures Valid() && history == Next(old(history), Pick, bound)
      ensures picked == if old(p1) != [] then [old(p1)[0]] else if old(shared) != [] then [old(shared)[0]] else []
    {
      picked := [];
      history := Next(history, Pick, bound);
      if p1 != [] {
        picked := [p1[0]];
        p1 := p1[1..];
      } else if shared != [] {
        picked := [shared[0]];
        shared := shared[1..];
      }
    }
  }
}
