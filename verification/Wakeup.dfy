/** Polling for a while and then blocking: producers notify a consumer that may sleep. */
module Wakeup {
  const U64_MAX: nat := 0xffff_ffff_ffff_ffff

  type U64 = n: nat | n <= U64_MAX

  /** Unsigned 64-bit subtraction. */
  function Minus(a: U64, b: U64): U64 { if a >= b then a - b else a - b + U64_MAX + 1 }

  /** struct notify_blockstate */
  datatype BlockState = BlockState(canBlock: bool, secondBar: bool, lastActive: U64)

  /** Whether an event is written, for a producer that last notified at `last`. */
  predicate Writes(last: U64, tsc: U64, delta: U64) { delta != U64_MAX && Minus(tsc, last) > delta }

  function Noted(last: U64, tsc: U64, delta: U64): U64 { if delta == U64_MAX then last else tsc }

  /** The block state after a poll, and whether the consumer may block now. */
  function Polled(b: BlockState, hadData: bool, tsc: U64, cycle: U64): (BlockState, bool) {
    if cycle == U64_MAX then (b, false)
    else if hadData then (BlockState(false, false, tsc), false)
    else if b.secondBar then (BlockState(false, false, tsc), true)
    else if b.canBlock && Minus(tsc, b.lastActive) > cycle then (b.(secondBar := true), false)
    else (b.(canBlock := true), false)
  }

  // ---- successive calls of the two functions

  datatype Call = Call(hadData: bool, tsc: U64)

  /** When the consumer was last active before the `n`-th call: the last call with data or
      the last time it blocked. */
  ghost function ActiveAt(cs: seq<Call>, n: nat, start: U64, cycle: U64): U64
    requires n <= |cs|
    decreases n, 0
  {
    if n == 0 then start
    else if cs[n - 1].hadData || Blocks(cs, n - 1, start, cycle) then cs[n - 1].tsc
    else ActiveAt(cs, n - 1, start, cycle)
  }

  /** Calls without data right before the `n`-th, since the consumer was last active. */
  ghost function IdleCalls(cs: seq<Call>, n: nat, start: U64, cycle: U64): nat
    requires n <= |cs|
    decreases n, 0
  {
    if n == 0 || cs[n - 1].hadData || Blocks(cs, n - 1, start, cycle) then 0
    else 1 + IdleCalls(cs, n - 1, start, cycle)
  }

  /** The `n`-th call finds nothing, is not the first to do so, and comes more than a poll
      cycle after the last activity. */
  ghost predicate Overdue(cs: seq<Call>, n: nat, start: U64, cycle: U64)
    requires n < |cs|
    decreases n, 1
  {
    && !cs[n].hadData
    && IdleCalls(cs, n, start, cycle) >= 1
    && Minus(cs[n].tsc, ActiveAt(cs, n, start, cycle)) > cycle
  }

  /** The consumer blocks at a call without data that follows an overdue call. */
  ghost predicate Blocks(cs: seq<Call>, n: nat, start: U64, cycle: U64)
    requires n < |cs|
    decreases n, 2
  {
    && !cs[n].hadData && n > 0
    && !Blocks(cs, n - 1, start, cycle)
    && Overdue(cs, n - 1, start, cycle)
  }

  /** The flags of the block state after `n` calls. */
  ghost predicate Flags(b: BlockState, cs: seq<Call>, n: nat, start: U64, cycle: U64)
    requires n <= |cs|
  {
    && b.lastActive == ActiveAt(cs, n, start, cycle)
    && (b.canBlock <==> IdleCalls(cs, n, start, cycle) >= 1)
    && (b.secondBar <==> n > 0 && !Blocks(cs, n - 1, start, cycle) && Overdue(cs, n - 1, start, cycle))
  }

  lemma FlagsStep(b: BlockState, cs: seq<Call>, n: nat, start: U64, cycle: U64)
    requires n < |cs| && cycle < U64_MAX && Flags(b, cs, n, start, cycle)
    ensures Flags(Polled(b, cs[n].hadData, cs[n].tsc, cycle).0, cs, n + 1, start, cycle)
    ensures Polled(b, cs[n].hadData, cs[n].tsc, cycle).1 == Blocks(cs, n, start, cycle)
  {
  }

  /** What happened up to a call does not depend on later calls. */
  lemma {:induction false} Earlier(cs: seq<Call>, ds: seq<Call>, n: nat, start: U64, cycle: U64)
    requires n <= |cs| && cs <= ds
    ensures ActiveAt(ds, n, start, cycle) == ActiveAt(cs, n, start, cycle)
    ensures IdleCalls(ds, n, start, cycle) == IdleCalls(cs, n, start, cycle)
    ensures n > 0 ==> Blocks(ds, n - 1, start, cycle) == Blocks(cs, n - 1, start, cycle)
    ensures n > 0 ==> Overdue(ds, n - 1, start, cycle) == Overdue(cs, n - 1, start, cycle)
  {
    if n > 0 { Earlier(cs, ds, n - 1, start, cycle); }
  }

  /** The consumer's side: one object per polling thread. */
  class Consumer {
    const cycle: U64
    var nbs: BlockState
    ghost const start: U64
    ghost var calls: seq<Call>

    ghost predicate Valid()
      reads this
    {
      cycle < U64_MAX ==> Flags(nbs, calls, |calls|, start, cycle)
    }

    /** notify_canblock_reset before the first poll; the time of the last activity is
        whatever it was. */
    constructor (cycle: U64, was: U64)
      ensures Valid() && this.cycle == cycle && start == was && calls == []
    {
      this.cycle := cycle;
      nbs := BlockState(false, false, was);
      start, calls := was, [];
    }

    /** notify_canblock */
    method CanBlock(hadData: bool, tsc: U64) returns (block: bool)
      requires Valid()
      modifies this
      ensures Valid() && calls == old(calls) + [Call(hadData, tsc)]
      ensures block <==> cycle < U64_MAX && Blocks(calls, |calls| - 1, start, cycle)
      ensures (nbs, block) == Polled(old(nbs), hadData, tsc, cycle)
    {
      ghost var was := nbs;
      calls := calls + [Call(hadData, tsc)];
      if cycle == U64_MAX { return false; }
      Earlier(old(calls), calls, |old(calls)|, start, cycle);
      FlagsStep(was, calls, |old(calls)|, start, cycle);
      if hadData {
        nbs := nbs.(canBlock := false, secondBar := false, lastActive := tsc);
      } else if nbs.secondBar {
        nbs := nbs.(canBlock := false, secondBar := false, lastActive := tsc);
        return true;
      } else if nbs.canBlock && Minus(tsc, nbs.lastActive) > cycle {
        nbs := nbs.(secondBar := true);
      } else {
        nbs := nbs.(canBlock := true);
      }
      return false;
    }
  }

  /** Notifications that came more than `delta` after the one before. */
  function Gaps(times: seq<U64>, delta: U64): (n: nat) {
    if times == [] then 0
    else
      var k := |times| - 1;
      Gaps(times[..k], delta) + if Minus(times[k], LastOf(times[..k])) > delta then 1 else 0
  }

  function LastOf(times: seq<U64>): U64 { if times == [] then 0 else times[|times| - 1] }

  /** The producer's side: one object per producer and consumer. */
  class Producer {
    const delta: U64
    var lastTs: U64
    var events: nat
    ghost var times: seq<U64>

    ghost predicate Valid()
      reads this
    {
      if delta == U64_MAX then events == 0 else lastTs == LastOf(times) && events == Gaps(times, delta)
    }

    constructor (delta: U64)
      ensures Valid() && this.delta == delta && times == []
    {
      this.delta := delta;
      lastTs, events, times := 0, 0, [];
    }

    /** notify_core */
    method NotifyCore(tsc: U64)
      requires Valid()
      modifies this
      ensures Valid() && times == old(times) + [tsc]
      ensures events == old(events) + (if Writes(old(lastTs), tsc, delta) then 1 else 0)
      ensures lastTs == Noted(old(lastTs), tsc, delta)
    {
      times := times + [tsc];
      if delta == U64_MAX { return; }
      assert times[..|times| - 1] == old(times);
      if Minus(tsc, lastTs) > delta { events := events + 1; }
      lastTs := tsc;
    }
  }

  // ---- the protocol

  /** Where the consumer is in one round of its loop: it reads the clock first (fast path)
      or only when it decides (slow path), and in between it takes items. */
  datatype Phase = Ready | Stamped(ts: U64) | Took(ts: U64, had: bool)

  /** All producers and the consumer.  `lastTs[i]` is the last notification of producer
      `i` and `owing[i]` says it has enqueued but not notified; `events` counts unread event
      writes; `queue` counts items not yet taken. */
  datatype System = System(now: U64, lastTs: seq<U64>, owing: seq<bool>, nbs: BlockState, queue: nat, events: nat,
                           blocked: bool, phase: Phase)

  /** The producers' threshold, the consumer's poll cycle, and whether the consumer reads
      the clock before it polls. */
  datatype Config = Config(delta: U64, cycle: U64, early: bool)

  datatype Event =
    | Tick(dt: nat)                // the common clock advances
    | Produce(i: nat)              // enqueue and notify, as one step
    | Stamp                        // the consumer reads the clock, if it does so early
    | Take(k: nat)                 // the consumer polls: it takes items, if there are any
    | Decide                       // the consumer asks whether to block
    | Wake                         // a blocked consumer reads its pending events
    | Spurious                     // a blocked consumer wakes for another reason
    | Reset                        // notify_canblock_reset
    | Enqueue(i: nat)              // the two halves of Produce, when they are not one step
    | NotifyLate(i: nat)

  function Next(s: System, e: Event, g: Config): System {
    match e
    case Tick(dt) => if s.now + dt <= U64_MAX then s.(now := s.now + dt) else s
    case Produce(i) => if Known(s, i) && !s.owing[i] then Notified(s.(queue := s.queue + 1), i, g.delta) else s
    case Stamp => if g.early && !s.blocked && s.phase.Ready? then s.(phase := Stamped(s.now)) else s
    case Take(k) =>
      if s.blocked || (g.early && s.phase.Ready?) || (s.queue > 0 && !(1 <= k <= s.queue)) then s
      else s.(phase := Took(if s.phase.Ready? then s.now else s.phase.ts, s.queue > 0 || HadData(s)),
              queue := if s.queue > 0 then s.queue - k else 0)
    case Decide =>
      if !s.phase.Took? then s
      else
        var (b, block) := Polled(s.nbs, s.phase.had, if g.early then s.phase.ts else s.now, g.cycle);
        s.(nbs := b, blocked := block, phase := Ready)
    case Wake => if s.blocked && s.events > 0 then s.(blocked := false, events := 0) else s
    case Spurious => if s.blocked then s.(blocked := false) else s
    case Reset => if s.blocked then s else s.(nbs := s.nbs.(canBlock := false, secondBar := false))
    case Enqueue(i) =>
      if Known(s, i) && !s.owing[i] then s.(queue := s.queue + 1, owing := s.owing[i := true]) else s
    case NotifyLate(i) =>
      if Known(s, i) && s.owing[i] then Notified(s.(owing := s.owing[i := false]), i, g.delta) else s
  }

  predicate Known(s: System, i: nat) { i < |s.lastTs| && i < |s.owing| }

  /** The consumer took something in this round. */
  predicate HadData(s: System) { s.phase.Took? && s.phase.had }

  function Notified(s: System, i: nat, delta: U64): System
    requires i < |s.lastTs|
  {
    s.(events := s.events + (if Writes(s.lastTs[i], s.now, delta) then 1 else 0),
       lastTs := s.lastTs[i := Noted(s.lastTs[i], s.now, delta)])
  }

  function RunEvents(s: System, es: seq<Event>, g: Config): (r: System)
    decreases es
  {
    if es == [] then s else RunEvents(Next(s, es[0], g), es[1..], g)
  }

  function Start(producers: nat): System {
    System(0, seq(producers, _ => 0), seq(producers, _ => false), BlockState(false, false, 0), 0, 0, false, Ready)
  }

  /** A sleeping consumer has work, no event waits, and no producer is about to write one. */
  predicate Lost(s: System) {
    s.blocked && s.queue > 0 && s.events == 0 && forall i :: 0 <= i < |s.owing| ==> !s.owing[i]
  }

  predicate Atomic(es: seq<Event>) {
    forall i :: 0 <= i < |es| ==> !es[i].Enqueue? && !es[i].NotifyLate?
  }

  /** In no run from the start, with any number of producers, is a wake-up lost. */
  ghost predicate AlwaysSafe(g: Config) {
    forall n: nat, es: seq<Event> :: Atomic(es) ==> !Lost(RunEvents(Start(n), es, g))
  }

  ghost predicate Bounds(s: System) {
    && s.nbs.lastActive <= s.now
    && (forall i :: 0 <= i < |s.lastTs| ==> s.lastTs[i] <= s.now)
    && (s.blocked ==> s.phase.Ready?)
  }

  /** Clock read when deciding.  No producer notified after the consumer was last active,
      unless its item is still there or was taken in this round; once the consumer is past
      its first bar, or asleep, every producer is due. */
  ghost predicate InvLate(s: System, g: Config) {
    && Bounds(s)
    && (if g.cycle == U64_MAX then !s.blocked
        else
          && (s.queue == 0 && !HadData(s) ==>
                && (forall i :: 0 <= i < |s.lastTs| ==> s.lastTs[i] <= s.nbs.lastActive)
                && (s.nbs.secondBar ==> s.now - s.nbs.lastActive > g.cycle))
          && (s.phase.Took? && !s.phase.had && s.queue > 0 && s.nbs.secondBar ==> s.events > 0)
          && (s.blocked ==>
                && (s.queue > 0 ==> s.events > 0)
                && (s.queue == 0 ==> forall i :: 0 <= i < |s.lastTs| ==> s.now - s.lastTs[i] > g.cycle)))
  }

  lemma LateStep(s: System, e: Event, g: Config)
    requires InvLate(s, g) && !g.early && g.delta <= g.cycle && !e.Enqueue? && !e.NotifyLate?
    ensures InvLate(Next(s, e, g), g)
  {
  }

  /** Clock read before polling, with threshold 0.  A producer that notified at this very
      instant either left an event or an item, or the consumer counts as active now. */
  ghost predicate JustNotified(s: System) {
    && (s.events == 0 ==>
          && (s.phase.Ready? || s.phase.ts == s.now)
          && (s.nbs.lastActive == s.now || s.queue > 0 || HadData(s)))
    && (s.blocked && s.queue == 0 ==> s.nbs.lastActive == s.now)
    && (!s.phase.Ready? && !HadData(s) && s.phase.ts < s.now ==> s.queue > 0)
  }

  ghost predicate InvEarly(s: System) {
    && Bounds(s)
    && (!s.phase.Ready? ==> s.nbs.lastActive <= s.phase.ts <= s.now)
    && (s.nbs.secondBar ==> s.nbs.lastActive < s.now)
    && (s.phase.Took? && !s.phase.had && s.queue > 0 && s.events == 0 ==> !s.nbs.secondBar)
    && (s.blocked && s.events == 0 ==> s.queue == 0 && forall i :: 0 <= i < |s.lastTs| ==> s.lastTs[i] < s.now)
    && (forall i :: 0 <= i < |s.lastTs| && s.lastTs[i] == s.now && s.now > 0 ==> JustNotified(s))
  }

  lemma EarlyStep(s: System, e: Event, g: Config)
    requires InvEarly(s) && g.early && g.delta == 0 && g.cycle < U64_MAX && !e.Enqueue? && !e.NotifyLate?
    ensures InvEarly(Next(s, e, g))
  {
  }

  lemma {:induction false} EarlyRun(s: System, es: seq<Event>, g: Config)
    requires InvEarly(s) && g.early && g.delta == 0 && g.cycle < U64_MAX && Atomic(es)
    ensures InvEarly(RunEvents(s, es, g))
    decreases es
  {
    if es != [] {
      EarlyStep(s, es[0], g);
      EarlyRun(Next(s, es[0], g), es[1..], g);
    }
  }

  lemma {:induction false} LateRun(s: System, es: seq<Event>, g: Config)
    requires InvLate(s, g) && !g.early && g.delta <= g.cycle && Atomic(es)
    ensures InvLate(RunEvents(s, es, g), g)
    decreases es
  {
    if es != [] {
      LateStep(s, es[0], g);
      LateRun(Next(s, es[0], g), es[1..], g);
    }
  }

  lemma {:induction false} NeverBlocks(s: System, es: seq<Event>, g: Config)
    requires g.cycle == U64_MAX && !s.blocked
    ensures !RunEvents(s, es, g).blocked
    decreases es
  {
    if es != [] { NeverBlocks(Next(s, es[0], g), es[1..], g); }
  }

  // ---- runs that lose a wake-up

  /** A run, given the states it passes through. */
  lemma {:induction false} Trace(ss: seq<System>, es: seq<Event>, g: Config)
    requires |ss| == |es| + 1 && forall k :: 0 <= k < |es| ==> Next(ss[k], es[k], g) == ss[k + 1]
    ensures RunEvents(ss[0], es, g) == ss[|es|]
  {
    hide Next;
    if es != [] {
      assert Next(ss[0], es[0], g) == ss[1];
      Trace(ss[1..], es[1..], g);
    }
  }

  const AWAKE := BlockState(false, false, 0)

  /** Late clock, threshold above the cycle: the producer considers itself recent while the
      consumer already sleeps. */
  lemma LateLoses(g: Config) returns (es: seq<Event>)
    requires !g.early && g.delta > g.cycle
    ensures Atomic(es) && Lost(RunEvents(Start(1), es, g))
  {
    hide RunEvents;
    var c := g.cycle + 1;
    es := [Produce(0), Take(1), Decide, Take(0), Decide, Tick(c), Take(0), Decide, Take(0), Decide, Produce(0)];
    var s := System(0, [0], [false], AWAKE, 0, 0, false, Ready);
    assert Start(1) == s;
    var a, b := BlockState(true, false, 0), BlockState(true, true, 0);
    var t := s.(now := c, nbs := a);
    var z := s.(now := c, nbs := BlockState(false, false, c), blocked := true);
    var ss := [s, s.(queue := 1), s.(phase := Took(0, true)), s, s.(phase := Took(0, false)), s.(nbs := a),
               t, t.(phase := Took(c, false)), t.(nbs := b), t.(nbs := b, phase := Took(c, false)), z,
               z.(queue := 1, lastTs := [if g.delta == U64_MAX then 0 else c])];
    Trace(ss, es, g);
  }

  /** `n` items, one per tick, each notified within the threshold. */
  function Ramp(n: nat): (es: seq<Event>)
    ensures |es| == 2 * n && Atomic(es)
  {
    if n == 0 then [] else Ramp(n - 1) + [Tick(1), Produce(0)]
  }

  function Ramped(n: U64): System {
    System(n, [n], [false], AWAKE, n, 0, false, Stamped(0))
  }

  lemma {:induction false} RampRun(n: U64, g: Config)
    requires g.early && 1 <= g.delta < U64_MAX
    ensures RunEvents(Ramped(0), Ramp(n), g) == Ramped(n)
  {
    hide RunEvents;
    if n == 0 {
      Trace([Ramped(0)], [], g);
    } else {
      RampRun(n - 1, g);
      var s, tail := Ramped(n - 1), [Tick(1), Produce(0)];
      Trace([s, s.(now := n), Ramped(n)], tail, g);
      EventsConcat(Ramped(0), Ramp(n - 1), tail, g);
    }
  }

  lemma {:induction false} EventsConcat(s: System, a: seq<Event>, b: seq<Event>, g: Config)
    ensures RunEvents(s, a + b, g) == RunEvents(RunEvents(s, a, g), b, g)
    decreases a
  {
    hide Next;
    if a == [] {
      assert a + b == b;
    } else {
      assert (a + b)[1..] == a[1..] + b;
      EventsConcat(Next(s, a[0], g), a[1..], b, g);
    }
  }

  /** Three rounds without data, more than a cycle after the last activity, and a producer
      that notified just now. */
  function Tail(n: nat): (es: seq<Event>)
    ensures Atomic(es)
  {
    [Take(n), Decide, Stamp, Take(0), Decide, Stamp, Take(0), Decide, Stamp, Take(0), Decide, Produce(0)]
  }

  lemma TailRun(g: Config)
    requires g.early && 1 <= g.delta < U64_MAX && g.cycle < U64_MAX
    ensures Lost(RunEvents(Ramped(g.cycle + 1), Tail(g.cycle + 1), g))
  {
    hide RunEvents;
    var c := g.cycle + 1;
    var s := Ramped(c);
    var t := s.(queue := 0, phase := Ready);
    var a, b := BlockState(true, false, 0), BlockState(true, true, 0);
    var z := t.(nbs := BlockState(false, false, c), blocked := true);
    var ss := [s, t.(phase := Took(0, true)), t,
               t.(phase := Stamped(c)), t.(phase := Took(c, false)), t.(nbs := a),
               t.(nbs := a, phase := Stamped(c)), t.(nbs := a, phase := Took(c, false)), t.(nbs := b),
               t.(nbs := b, phase := Stamped(c)), t.(nbs := b, phase := Took(c, false)), z, z.(queue := 1)];
    assert z.lastTs[0 := c] == z.lastTs;
    Trace(ss, Tail(c), g);
  }

  /** Early clock, positive threshold: items that arrive while the consumer holds an old
      clock reading are taken but do not count as recent activity. */
  lemma EarlyLoses(g: Config) returns (es: seq<Event>)
    requires g.early && 1 <= g.delta && g.cycle < U64_MAX
    ensures Atomic(es) && Lost(RunEvents(Start(1), es, g))
  {
    if g.delta == U64_MAX {
      es := EarlyDeaf(g);
    } else {
      hide Next, RunEvents, Lost;
      var c := g.cycle + 1;
      var s := System(0, [0], [false], AWAKE, 0, 0, false, Ready);
      es := [Stamp] + Ramp(c) + Tail(c);
      assert RunEvents(Start(1), [Stamp], g) == Ramped(0) by { FirstStamp(g); }
      EventsConcat(Start(1), [Stamp], Ramp(c), g);
      RampRun(c, g);
      EventsConcat(Start(1), [Stamp] + Ramp(c), Tail(c), g);
      TailRun(g);
    }
  }

  lemma FirstStamp(g: Config)
    requires g.early
    ensures RunEvents(Start(1), [Stamp], g) == Ramped(0)
  {
    hide RunEvents;
    var s := System(0, [0], [false], AWAKE, 0, 0, false, Ready);
    assert Start(1) == s;
    Trace([s, Ramped(0)], [Stamp], g);
  }

  /** With notifications switched off and blocking on, the first sleep is for ever. */
  lemma EarlyDeaf(g: Config) returns (es: seq<Event>)
    requires g.early && g.delta == U64_MAX && g.cycle < U64_MAX
    ensures Atomic(es) && Lost(RunEvents(Start(1), es, g))
  {
    hide RunEvents;
    var c := g.cycle + 1;
    es := [Tick(c), Stamp, Take(0), Decide, Stamp, Take(0), Decide, Stamp, Take(0), Decide, Produce(0)];
    var s := System(0, [0], [false], AWAKE, 0, 0, false, Ready);
    assert Start(1) == s;
    var t := s.(now := c);
    var a, b := BlockState(true, false, 0), BlockState(true, true, 0);
    var z := t.(nbs := BlockState(false, false, c), blocked := true);
    var ss := [s, t, t.(phase := Stamped(c)), t.(phase := Took(c, false)), t.(nbs := a),
               t.(nbs := a, phase := Stamped(c)), t.(nbs := a, phase := Took(c, false)), t.(nbs := b),
               t.(nbs := b, phase := Stamped(c)), t.(nbs := b, phase := Took(c, false)), z, z.(queue := 1)];
    assert z.lastTs[0 := 0] == z.lastTs;
    Trace(ss, es, g);
  }

  /** The slow path, which reads the clock when it decides: no wake-up is ever lost, in any
      interleaving of any number of producers, exactly when the producers' threshold is at
      most the consumer's poll cycle. */
  lemma NoLostWakeup(g: Config)
    requires !g.early
    ensures AlwaysSafe(g) <==> g.delta <= g.cycle
  {
    if g.delta <= g.cycle {
      forall n: nat, es: seq<Event> | Atomic(es) ensures !Lost(RunEvents(Start(n), es, g)) {
        LateRun(Start(n), es, g);
      }
    } else {
      var es := LateLoses(g);
    }
  }

  /** The fast path, which reads the clock before it polls: only with threshold 0, or when
      the consumer never blocks. */
  lemma NoLostWakeupEarly(g: Config)
    requires g.early
    ensures AlwaysSafe(g) <==> g.delta == 0 || g.cycle == U64_MAX
  {
    if g.delta == 0 || g.cycle == U64_MAX {
      forall n: nat, es: seq<Event> | Atomic(es) ensures !Lost(RunEvents(Start(n), es, g)) {
        if g.cycle == U64_MAX {
          NeverBlocks(Start(n), es, g);
        } else {
          EarlyRun(Start(n), es, g);
        }
      }
    } else {
      var es := EarlyLoses(g);
    }
  }

  /** Enqueueing and notifying must be one step: otherwise an item can be taken, and the
      consumer fall asleep, before its producer reads the clock; the producer's next
      notification is then suppressed.  So it is for every threshold and every cycle that
      can pass twice. */
  lemma SplitStepsLose(g: Config) returns (es: seq<Event>)
    requires !g.early && 2 * g.cycle + 2 <= U64_MAX
    ensures Lost(RunEvents(Start(1), es, g))
  {
    hide RunEvents;
    var c := g.cycle + 1;
    var head := [Enqueue(0), Take(1), Decide, Take(0), Decide, Tick(c), Take(0), Decide, Take(0), Decide];
    var tail := [Tick(c), NotifyLate(0), if 2 * c > g.delta then Wake else Spurious,
                 Take(0), Decide, Take(0), Decide, Take(0), Decide, Produce(0)];
    es := head + tail;
    SplitHead(head, g);
    SplitTail(tail, g);
    EventsConcat(Start(1), head, tail, g);
  }

  function Asleep(c: U64): System {
    System(c, [0], [true], BlockState(false, false, c), 0, 0, true, Ready)
  }

  lemma SplitHead(es: seq<Event>, g: Config)
    requires !g.early && 2 * g.cycle + 2 <= U64_MAX
    requires es == [Enqueue(0), Take(1), Decide, Take(0), Decide, Tick(g.cycle + 1), Take(0), Decide, Take(0), Decide]
    ensures RunEvents(Start(1), es, g) == Asleep(g.cycle + 1)
  {
    hide RunEvents;
    var c := g.cycle + 1;
    var s := System(0, [0], [true], AWAKE, 0, 0, false, Ready);
    assert Start(1) == s.(owing := [false]);
    var a, b := BlockState(true, false, 0), BlockState(true, true, 0);
    var t := s.(now := c, nbs := a);
    var ss := [s.(owing := [false]), s.(queue := 1), s.(phase := Took(0, true)), s,
               s.(phase := Took(0, false)), s.(nbs := a), t,
               t.(phase := Took(c, false)), t.(nbs := b), t.(nbs := b, phase := Took(c, false)), Asleep(c)];
    Trace(ss, es, g);
  }

  lemma SplitTail(es: seq<Event>, g: Config)
    requires !g.early && 2 * g.cycle + 2 <= U64_MAX
    requires es == [Tick(g.cycle + 1), NotifyLate(0), if 2 * (g.cycle + 1) > g.delta then Wake else Spurious,
                    Take(0), Decide, Take(0), Decide, Take(0), Decide, Produce(0)]
    ensures Lost(RunEvents(Asleep(g.cycle + 1), es, g))
  {
    hide RunEvents;
    var c := g.cycle + 1;
    var d := 2 * c;
    var s := Asleep(c);
    var note := if g.delta == U64_MAX then 0 else d;
    var n := s.(now := d, owing := [false], lastTs := [note]);
    var t := n.(blocked := false);
    var a, b := BlockState(true, false, c), BlockState(true, true, c);
    var z := n.(nbs := BlockState(false, false, d));
    var ss := [s, s.(now := d), n.(events := if d > g.delta then 1 else 0), t,
               t.(phase := Took(d, false)), t.(nbs := a),
               t.(nbs := a, phase := Took(d, false)), t.(nbs := b),
               t.(nbs := b, phase := Took(d, false)), z, z.(queue := 1)];
    Trace(ss, es, g);
  }
}
