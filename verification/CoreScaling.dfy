/** The fast path's load monitor: it asks for one core more or one core less. */
module CoreScaling {
  const U64: nat := 0x1_0000_0000_0000_0000

  datatype Option<T> = None | Some(value: T)

  /** 64-bit wrap-around. */
  function W(x: int): (r: nat)
    ensures r < U64
  {
    x % U64
  }

  // ---- the decision

  /** Cycles `n` cores were idle, given the averages of busy and of elapsed cycles. */
  function Idle(n: nat, busy: nat, cycles: nat): (r: nat) {
    if W(n * cycles) > busy then W(n * cycles) - busy else 0
  }

  predicate WantsDown(n: nat, busy: nat, cycles: nat) {
    n > 1 && Idle(n, busy, cycles) > W(cycles * 5) / 4
  }

  predicate WantsUp(n: nat, max: nat, busy: nat, cycles: nat) {
    n < max && Idle(n, busy, cycles) < cycles / 5
  }

  function Decision(n: nat, max: nat, busy: nat, cycles: nat): (r: Option<nat>) {
    if WantsDown(n, busy, cycles) then Some(n - 1)
    else if WantsUp(n, max, busy, cycles) then Some(n + 1)
    else None
  }

  lemma WAdd(p: nat, c: nat)
    requires c < U64
    ensures W(p + c) == if W(p) + c < U64 then W(p) + c else W(p) + c - U64
  {
    var q := p / U64;
    assert p == q * U64 + W(p);
    if W(p) + c < U64 {
      WUnique(p + c, q, W(p) + c);
    } else {
      WUnique(p + c, q + 1, W(p) + c - U64);
    }
  }

  lemma WUnique(x: nat, q: nat, r: nat)
    requires x == q * U64 + r && r < U64
    ensures W(x) == r
  {
  }

  /** The next product, in wrapping arithmetic. */
  lemma NextProduct(n: nat, c: nat)
    requires c < U64
    ensures W((n + 1) * c) == if W(n * c) + c < U64 then W(n * c) + c else W(n * c) + c - U64
  {
    assert (n + 1) * c == n * c + c;
    WAdd(n * c, c);
  }

  /** With the same averages, the count reached by asking for one core more does not ask for
      one core less, nor the other way round: in 64-bit arithmetic with integer division. */
  lemma Hysteresis(n: nat, max: nat, busy: nat, cycles: nat)
    requires cycles * 5 < U64
    ensures WantsUp(n, max, busy, cycles) ==> !WantsDown(n + 1, busy, cycles)
    ensures WantsDown(n + 1, busy, cycles) ==> !WantsUp(n, max, busy, cycles)
  {
    hide W;
    NextProduct(n, cycles);
    assert W(cycles * 5) == cycles * 5 by { WUnique(cycles * 5, 0, cycles * 5); }
    HysteresisArithmetic(W(n * cycles), W((n + 1) * cycles), busy, cycles);
  }

  lemma HysteresisArithmetic(p: nat, q: nat, busy: nat, c: nat)
    requires p < U64 && c * 5 < U64
    requires q == if p + c < U64 then p + c else p + c - U64
    ensures !((if p > busy then p - busy else 0) < c / 5 && (if q > busy then q - busy else 0) > c * 5 / 4)
  {
  }

  // ---- the monitor

  /** One reading: per core its busy counter, or none while it has no context; and the clock. */
  datatype Reading = Reading(cores: seq<Option<nat>>, tsc: nat)

  datatype Monitor = Monitor(busy: nat, cycles: nat, lastTsc: nat, waiting: bool, waitingN: nat, loads: seq<nat>)

  /** The first core without a context, or `n`. */
  function Missing(cores: seq<Option<nat>>, n: nat): (r: nat)
    requires n <= |cores|
    ensures r <= n
    ensures forall i :: 0 <= i < r ==> cores[i].Some?
    ensures r < n ==> cores[r].None?
  {
    if n == 0 then 0
    else if Missing(cores, n - 1) < n - 1 then Missing(cores, n - 1)
    else if cores[n - 1].None? then n - 1
    else n
  }

  /** Busy cycles of the first `n` cores since the previous reading. */
  function Spent(cores: seq<Option<nat>>, loads: seq<nat>, n: nat): (r: nat)
    requires n <= |cores| && n <= |loads| && forall i :: 0 <= i < n ==> cores[i].Some?
  {
    if n == 0 then 0
    else W(Spent(cores, loads, n - 1) + W(cores[n - 1].value - loads[n - 1]))
  }

  /** The loads once the first `n` cores were read. */
  function Read(cores: seq<Option<nat>>, loads: seq<nat>, n: nat): (r: seq<nat>)
    requires n <= |cores| && n <= |loads| && forall i :: 0 <= i < n ==> cores[i].Some?
    ensures |r| == |loads|
  {
    seq(|loads|, i requires 0 <= i < |loads| => if i < n then cores[i].value else loads[i])
  }

  /** One call with `n` running cores: the monitor afterwards and the count asked for, if any. */
  function Observe(m: Monitor, n: nat, max: nat, r: Reading): (res: (Monitor, Option<nat>))
    requires |m.loads| == max == |r.cores| && n <= max
    ensures |res.0.loads| == max
  {
    var k := Missing(r.cores, n);
    var read := m.(loads := Read(r.cores, m.loads, k));
    if k < n then (read, None)
    else if m.lastTsc == 0 then (read.(lastTsc := r.tsc), None)
    else
      var busy := W(7 * m.busy + Spent(r.cores, m.loads, n)) / 8;
      var cycles := W(7 * m.cycles + W(r.tsc - m.lastTsc)) / 8;
      var avg := read.(lastTsc := r.tsc, busy := busy, cycles := cycles);
      if m.waiting && m.waitingN + 1 < 10 then (avg.(waitingN := m.waitingN + 1), None)
      else
        var d := Decision(n, max, busy, cycles);
        if d.Some? then (avg.(waiting := true, waitingN := 0), d)
        else (avg.(waitingN := if m.waiting then m.waitingN + 1 else m.waitingN), None)
  }

  // ---- runs of the monitor and the fast path

  datatype Sys = Sys(m: Monitor, cur: nat, scaleTo: nat)

  /** A call of the monitor, or the fast path taking up a pending request. */
  datatype Event = Call(r: Reading) | Apply

  predicate Inv(s: Sys, max: nat) {
    && 1 <= s.cur <= max && s.scaleTo <= max && |s.m.loads| == max
    && s.m.waiting && s.m.cycles * 5 < U64
  }

  predicate EventOk(e: Event, max: nat) {
    e.Call? ==> |e.r.cores| == max
  }

  /** What a call asks for. */
  function Asked(s: Sys, max: nat, r: Reading): (res: Option<nat>)
    requires Inv(s, max) && |r.cores| == max
  {
    Observe(s.m, s.cur, max, r).1
  }

  function Next(s: Sys, max: nat, e: Event): (t: Sys)
    requires Inv(s, max) && EventOk(e, max)
    ensures Inv(t, max)
  {
    match e
    case Call(r) =>
      var (m, d) := Observe(s.m, s.cur, max, r);
      Sys(m, s.cur, if d.Some? && s.scaleTo == 0 then d.value else s.scaleTo)
    case Apply =>
      if s.scaleTo == 0 then s else Sys(s.m, s.scaleTo, 0)
  }

  function Start(max: nat): (s: Sys)
    requires max >= 1
    ensures Inv(s, max)
  {
    Sys(Monitor(0, 0, 0, true, 0, seq(max, i => 0)), 1, 0)
  }

  /** What the calls of a run ask for, one entry per call. */
  function Requests(s: Sys, max: nat, es: seq<Event>): (qs: seq<Option<nat>>)
    requires Inv(s, max) && forall i :: 0 <= i < |es| ==> EventOk(es[i], max)
    decreases |es|
  {
    if es == [] then []
    else
      var rest := Requests(Next(s, max, es[0]), max, es[1..]);
      if es[0].Call? then [Asked(s, max, es[0].r)] + rest else rest
  }

  /** Over any run, every count asked for lies in 1 .. max. */
  lemma {:induction false} RequestsInRange(s: Sys, max: nat, es: seq<Event>)
    requires Inv(s, max) && forall i :: 0 <= i < |es| ==> EventOk(es[i], max)
    ensures forall i :: 0 <= i < |Requests(s, max, es)| && Requests(s, max, es)[i].Some? ==>
                          1 <= Requests(s, max, es)[i].value <= max
    decreases |es|
  {
    if es != [] { RequestsInRange(Next(s, max, es[0]), max, es[1..]); }
  }

  /** The first request of a run comes only after the waiting period has run out. */
  lemma {:induction false} FirstRequest(s: Sys, max: nat, es: seq<Event>, i: nat)
    requires Inv(s, max) && forall k :: 0 <= k < |es| ==> EventOk(es[k], max)
    requires i < |Requests(s, max, es)| && Requests(s, max, es)[i].Some?
    ensures i + 1 + s.m.waitingN >= 10 || exists k :: 0 <= k < i && Requests(s, max, es)[k].Some?
    decreases |es|
  {
    var t := Next(s, max, es[0]);
    var qs, rest := Requests(s, max, es), Requests(t, max, es[1..]);
    if es[0].Apply? {
      FirstRequest(t, max, es[1..], i);
    } else if i > 0 && qs[0].None? {
      assert t.m.waitingN <= s.m.waitingN + 1;
      assert rest[i - 1] == qs[i];
      FirstRequest(t, max, es[1..], i - 1);
      if k :| 0 <= k < i - 1 && rest[k].Some? { assert qs[k + 1].Some?; }
    }
  }

  /** Over any run, two requests are at least ten calls apart. */
  lemma {:induction false} RequestsApart(s: Sys, max: nat, es: seq<Event>, i: nat, j: nat)
    requires Inv(s, max) && forall k :: 0 <= k < |es| ==> EventOk(es[k], max)
    requires i < j < |Requests(s, max, es)|
    requires Requests(s, max, es)[i].Some? && Requests(s, max, es)[j].Some?
    ensures j >= i + 10
    decreases |es|, j
  {
    var t := Next(s, max, es[0]);
    var qs, rest := Requests(s, max, es), Requests(t, max, es[1..]);
    if es[0].Apply? {
      RequestsApart(t, max, es[1..], i, j);
    } else if i > 0 {
      assert rest[i - 1] == qs[i] && rest[j - 1] == qs[j];
      RequestsApart(t, max, es[1..], i - 1, j - 1);
    } else {
      assert t.m.waitingN == 0;
      assert rest[j - 1] == qs[j];
      FirstRequest(t, max, es[1..], j - 1);
      if k :| 0 <= k < j - 1 && rest[k].Some? {
        assert qs[k + 1] == rest[k];
        RequestsApart(s, max, es, i, k + 1);
      }
    }
  }

  /** Whatever a call asks for, the averages it asked on would not ask for the way back. */
  lemma NoFlipFlop(s: Sys, max: nat, r: Reading)
    requires Inv(s, max) && |r.cores| == max && Asked(s, max, r).Some?
    ensures var t := Next(s, max, Call(r));
      Decision(Asked(s, max, r).value, max, t.m.busy, t.m.cycles) != Some(s.cur)
  {
    hide Read, Spent, Missing, Idle, W;
    var t := Next(s, max, Call(r));
    Hysteresis(s.cur, max, t.m.busy, t.m.cycles);
    if s.cur > 1 { Hysteresis(s.cur - 1, max, t.m.busy, t.m.cycles); }
  }

  // ---- what the averages measure

  /** All running cores were read, none of their counters went back, and neither did the clock. */
  ghost predicate Steady(s: Sys, max: nat, r: Reading) {
    && Inv(s, max) && |r.cores| == max
    && 0 < s.m.lastTsc <= r.tsc
    && forall i :: 0 <= i < s.cur ==> r.cores[i].Some? && s.m.loads[i] <= r.cores[i].value
  }

  /** What the counters of the first `n` cores advanced, as a number. */
  function Advanced(cores: seq<Option<nat>>, loads: seq<nat>, n: nat): (x: nat)
    requires n <= |cores| && n <= |loads|
    requires forall i :: 0 <= i < n ==> cores[i].Some? && loads[i] <= cores[i].value
  {
    if n == 0 then 0 else Advanced(cores, loads, n - 1) + (cores[n - 1].value - loads[n - 1])
  }

  lemma {:induction false} SpentIsAdvanced(cores: seq<Option<nat>>, loads: seq<nat>, n: nat)
    requires n <= |cores| && n <= |loads|
    requires forall i :: 0 <= i < n ==> cores[i].Some? && loads[i] <= cores[i].value
    requires Advanced(cores, loads, n) < U64
    ensures Spent(cores, loads, n) == Advanced(cores, loads, n)
  {
    if n > 0 {
      SpentIsAdvanced(cores, loads, n - 1);
      WSmall(cores[n - 1].value - loads[n - 1]);
      WSmall(Advanced(cores, loads, n));
    }
  }

  lemma WSmall(x: nat)
    requires x < U64
    ensures W(x) == x
  {
  }

  /** While nothing wraps, each average moves by an eighth towards what was measured: the
      counters' advance, and the clock's. */
  lemma Averages(s: Sys, max: nat, r: Reading)
    requires Steady(s, max, r)
    requires 7 * s.m.busy + Advanced(r.cores, s.m.loads, s.cur) < U64 && 7 * s.m.cycles + (r.tsc - s.m.lastTsc) < U64
    ensures var t := Next(s, max, Call(r)).m;
      && 8 * t.busy <= 7 * s.m.busy + Advanced(r.cores, s.m.loads, s.cur) < 8 * t.busy + 8
      && 8 * t.cycles <= 7 * s.m.cycles + (r.tsc - s.m.lastTsc) < 8 * t.cycles + 8
      && t.lastTsc == r.tsc && forall i :: 0 <= i < s.cur ==> t.loads[i] == r.cores[i].value
  {
    hide W, Idle, Spent, Advanced;
    AllPresent(r.cores, s.cur);
    SpentIsAdvanced(r.cores, s.m.loads, s.cur);
    WSmall(7 * s.m.busy + Advanced(r.cores, s.m.loads, s.cur));
    WSmall(r.tsc - s.m.lastTsc);
    WSmall(7 * s.m.cycles + (r.tsc - s.m.lastTsc));
  }

  lemma {:induction false} AllPresent(cores: seq<Option<nat>>, n: nat)
    requires n <= |cores| && forall i :: 0 <= i < n ==> cores[i].Some?
    ensures Missing(cores, n) == n
  {
    if n > 0 { AllPresent(cores, n - 1); }
  }

  /** What a call with all cores present does once it has averaged. */
  lemma Decides(s: Sys, max: nat, r: Reading)
    requires Steady(s, max, r)
    ensures var t := Next(s, max, Call(r));
      && t.cur == s.cur
      && (s.m.waitingN + 1 < 10 ==> Asked(s, max, r).None? && t.m.waitingN == s.m.waitingN + 1)
      && (s.m.waitingN + 1 >= 10 ==> Asked(s, max, r) == Decision(s.cur, max, t.m.busy, t.m.cycles))
      && (s.m.waitingN + 1 >= 10 && Asked(s, max, r).None? ==> t.m.waitingN == s.m.waitingN + 1)
  {
    hide W, Idle, Spent, Decision;
    AllPresent(r.cores, s.cur);
  }

  function Calls(rs: seq<Reading>): (es: seq<Event>)
    ensures |es| == |rs| && forall i :: 0 <= i < |rs| ==> es[i] == Call(rs[i])
  {
    seq(|rs|, i requires 0 <= i < |rs| => Call(rs[i]))
  }

  /** Calls before the waiting period has run out. */
  function Wait(s: Sys): nat { if s.m.waitingN >= 9 then 0 else 9 - s.m.waitingN }

  // ---- cores that are busy all the time

  /** Every running core was busy for all of the interval, of at least 40 cycles. */
  ghost predicate FullLoad(s: Sys, max: nat, r: Reading) {
    && Steady(s, max, r) && r.tsc - s.m.lastTsc >= 40
    && (forall i :: 0 <= i < s.cur ==> r.cores[i].value - s.m.loads[i] == r.tsc - s.m.lastTsc)
    && 7 * s.m.busy + s.cur * (r.tsc - s.m.lastTsc) < U64 && 7 * s.m.cycles + (r.tsc - s.m.lastTsc) < U64
  }

  ghost predicate BusyRun(s: Sys, max: nat, rs: seq<Reading>)
    decreases |rs|
  {
    rs == [] || (FullLoad(s, max, rs[0]) && BusyRun(Next(s, max, Call(rs[0])), max, rs[1..]))
  }

  lemma {:induction false} AllTheSame(cores: seq<Option<nat>>, loads: seq<nat>, n: nat, d: nat)
    requires n <= |cores| && n <= |loads|
    requires forall i :: 0 <= i < n ==> cores[i].Some? && loads[i] <= cores[i].value && cores[i].value - loads[i] == d
    ensures Advanced(cores, loads, n) == n * d
  {
    if n > 0 { AllTheSame(cores, loads, n - 1, d); }
  }

  /** Averages that find every core busy go on finding every core busy. */
  lemma BusyStep(s: Sys, max: nat, r: Reading)
    requires FullLoad(s, max, r) && s.m.busy >= s.cur * s.m.cycles
    ensures var t := Next(s, max, Call(r)); t.m.busy >= t.cur * t.m.cycles && t.m.cycles >= 5
    ensures var t := Next(s, max, Call(r)); s.cur < max ==> Decision(s.cur, max, t.m.busy, t.m.cycles) == Some(s.cur + 1)
  {
    hide Observe, W;
    var t, d := Next(s, max, Call(r)), r.tsc - s.m.lastTsc;
    AllTheSame(r.cores, s.m.loads, s.cur, d);
    Averages(s, max, r);
    Decides(s, max, r);
    BusyArithmetic(s.cur, s.m.busy, s.m.cycles, d, t.m.busy, t.m.cycles);
    WBelow(s.cur * t.m.cycles);
  }

  lemma WBelow(x: nat)
    ensures W(x) <= x
  {
  }

  lemma BusyArithmetic(n: nat, b: nat, c: nat, d: nat, b': nat, c': nat)
    requires b >= n * c && 7 * b + n * d < 8 * b' + 8 && 8 * c' <= 7 * c + d
    ensures b' >= n * c'
  {
    Scale(n, 8 * c', 7 * c + d);
    assert n * (8 * c') == 8 * (n * c') && n * (7 * c + d) == 7 * (n * c) + n * d;
  }

  lemma Scale(n: nat, a: nat, b: nat)
    requires a <= b
    ensures n * a <= n * b
  {
  }

  /** Cores that are busy all the time, below the maximum: one more is asked for at the very
      call at which the waiting period runs out, and nothing before. */
  lemma {:induction false} BusyAsksUp(s: Sys, max: nat, rs: seq<Reading>)
    requires Inv(s, max) && BusyRun(s, max, rs) && forall i :: 0 <= i < |rs| ==> |rs[i].cores| == max
    requires s.cur < max && s.m.busy >= s.cur * s.m.cycles && |rs| > Wait(s)
    ensures var qs := Requests(s, max, Calls(rs));
      && |qs| == |rs| && qs[Wait(s)] == Some(s.cur + 1)
      && forall i :: 0 <= i < Wait(s) ==> qs[i].None?
    decreases |rs|
  {
    hide Next, Observe, Decision;
    var r := rs[0];
    var t := Next(s, max, Call(r));
    var qs, rest := Requests(s, max, Calls(rs)), Requests(t, max, Calls(rs[1..]));
    CallsRun(s, max, rs);
    BusyStep(s, max, r);
    Decides(s, max, r);
    RequestCount(t, max, rs[1..]);
    if Wait(s) > 0 {
      BusyAsksUp(t, max, rs[1..]);
      forall i | 0 <= i < Wait(s) ensures qs[i].None? {
        if i > 0 { assert qs[i] == rest[i - 1]; }
      }
    }
  }

  lemma CallsRun(s: Sys, max: nat, rs: seq<Reading>)
    requires Inv(s, max) && rs != [] && forall i :: 0 <= i < |rs| ==> |rs[i].cores| == max
    ensures Requests(s, max, Calls(rs)) ==
            [Asked(s, max, rs[0])] + Requests(Next(s, max, Call(rs[0])), max, Calls(rs[1..]))
  {
    hide Next, Observe;
    assert Calls(rs)[1..] == Calls(rs[1..]);
  }

  lemma {:induction false} RequestCount(s: Sys, max: nat, rs: seq<Reading>)
    requires Inv(s, max) && forall i :: 0 <= i < |rs| ==> |rs[i].cores| == max
    ensures |Requests(s, max, Calls(rs))| == |rs|
    decreases |rs|
  {
    hide Next, Observe;
    if rs != [] {
      CallsRun(s, max, rs);
      RequestCount(Next(s, max, Call(rs[0])), max, rs[1..]);
    }
  }

  /** From the start: the first call only reads the clock, and the tenth after it asks for a
      second core. */
  lemma BusyFromStart(max: nat, r: Reading, rs: seq<Reading>)
    requires max >= 2 && |r.cores| == max && r.cores[0].Some? && r.tsc > 0
    requires forall i :: 0 <= i < |rs| ==> |rs[i].cores| == max
    requires BusyRun(Next(Start(max), max, Call(r)), max, rs) && |rs| >= 10
    ensures var qs := Requests(Start(max), max, Calls([r] + rs));
      |qs| == |rs| + 1 && qs[10] == Some(2) && forall i :: 0 <= i < 10 ==> qs[i].None?
  {
    hide Next, Decision, BusyRun;
    var s := Start(max);
    var t := Next(s, max, Call(r));
    assert t.cur == 1 && t.m.waitingN == 0 && t.m.busy == 0 && t.m.cycles == 0 && Asked(s, max, r).None? by {
      FirstCall(max, r);
    }
    assert ([r] + rs)[1..] == rs;
    CallsRun(s, max, [r] + rs);
    BusyAsksUp(t, max, rs);
  }

  lemma FirstCall(max: nat, r: Reading)
    requires max >= 1 && |r.cores| == max && r.cores[0].Some? && r.tsc > 0
    ensures var t := Next(Start(max), max, Call(r));
      && t.cur == 1 && t.m.waitingN == 0 && t.m.busy == 0 && t.m.cycles == 0 && t.m.lastTsc == r.tsc
      && t.m.loads[0] == r.cores[0].value && Asked(Start(max), max, r).None?
  {
    AllPresent(r.cores, 1);
  }

  // ---- cores that are idle all the time

  /** No running core was busy in an interval at least as long as the average `c0`. */
  ghost predicate NoLoad(s: Sys, max: nat, r: Reading, c0: nat) {
    && Steady(s, max, r) && r.tsc - s.m.lastTsc >= 8 && r.tsc - s.m.lastTsc >= c0
    && (forall i :: 0 <= i < s.cur ==> r.cores[i].value == s.m.loads[i])
    && 7 * s.m.busy < U64 && 7 * s.m.cycles + (r.tsc - s.m.lastTsc) < U64
    && s.cur * (7 * s.m.cycles + (r.tsc - s.m.lastTsc)) < U64
  }

  ghost predicate IdleRun(s: Sys, max: nat, rs: seq<Reading>, c0: nat)
    decreases |rs|
  {
    rs == [] || (NoLoad(s, max, rs[0], c0) && IdleRun(Next(s, max, Call(rs[0])), max, rs[1..], c0))
  }

  function Pow(b: nat, k: nat): nat { if k == 0 then 1 else b * Pow(b, k - 1) }

  /** The busy average has shrunk by an eighth `k` times from at most `n` full cores. */
  ghost predicate Shrunk(busy: nat, k: nat, n: nat, c0: nat) { Pow(8, k) * busy <= Pow(7, k) * (n * c0) }

  lemma ShrinkStep(busy: nat, busy': nat, k: nat, n: nat, c0: nat)
    requires Shrunk(busy, k, n, c0) && 8 * busy' <= 7 * busy
    ensures Shrunk(busy', k + 1, n, c0) && Shrunk(busy', k, n, c0)
  {
    var p, q, m := Pow(8, k), Pow(7, k), n * c0;
    Scale(p, 8 * busy', 7 * busy);
    Scale(p, busy', busy);
    assert p * (8 * busy') == (8 * p) * busy' && p * (7 * busy) == 7 * (p * busy) && 7 * (q * m) == (7 * q) * m;
  }

  /** After one shrinking at most seven eighths of the cores' cycles count as busy, after eight
      less than three eighths. */
  lemma ShrunkLittle(busy: nat, k: nat, n: nat, c0: nat)
    requires Shrunk(busy, k, n, c0) && 1 <= k <= 8
    ensures 8 * busy <= 7 * (n * c0)
    ensures k == 8 ==> 1000 * busy <= 344 * (n * c0)
    decreases k
  {
    var m := n * c0;
    if k == 8 {
      assert Pow(8, 4) == 4096 && Pow(7, 4) == 2401;
      assert Pow(8, 8) == 4096 * Pow(8, 4) && Pow(7, 8) == 2401 * Pow(7, 4);
      assert 16777216 * busy <= 5764801 * m;
    } else if k > 1 {
      PowRatio(k, busy, m);
    }
  }

  lemma {:induction false} PowRatio(k: nat, busy: nat, m: nat)
    requires Pow(8, k) * busy <= Pow(7, k) * m && k >= 1
    ensures 8 * busy <= 7 * m
  {
    if k > 1 {
      var p, q := Pow(8, k - 1), Pow(7, k - 1);
      PowOrder(k - 1);
      assert 8 * p * busy == p * (8 * busy) && 7 * q * m == q * (7 * m);
      if 8 * busy > 7 * m {
        Scale(7 * m, q, p);
        assert q * (7 * m) <= p * (7 * m);
        ScaleStrict(p, 7 * m, 8 * busy);
        assert false;
      }
    }
  }

  lemma {:induction false} PowOrder(k: nat)
    ensures 1 <= Pow(7, k) <= Pow(8, k)
  {
    if k > 0 { PowOrder(k - 1); }
  }

  lemma ScaleStrict(n: nat, a: nat, b: nat)
    requires n >= 1 && a < b
    ensures n * a < n * b
  {
    Scale(n, a + 1, b);
    assert n * (a + 1) == n * a + n;
  }

  /** One idle call: the average of elapsed cycles does not fall below `c0`, no core more is
      wanted, and after eight of them one less is. */
  lemma IdleStep(s: Sys, max: nat, r: Reading, c0: nat, k: nat)
    requires NoLoad(s, max, r, c0) && s.cur >= 2 && s.m.cycles >= c0 && Shrunk(s.m.busy, k, s.cur, c0)
    ensures var t := Next(s, max, Call(r));
      && t.m.cycles >= c0 && Shrunk(t.m.busy, k + 1, s.cur, c0) && Shrunk(t.m.busy, k, s.cur, c0)
      && (k < 8 ==> !WantsUp(s.cur, max, t.m.busy, t.m.cycles))
      && (k == 7 ==> WantsDown(s.cur, t.m.busy, t.m.cycles))
  {
    hide Observe, W, Shrunk, Idle;
    var t, d := Next(s, max, Call(r)), r.tsc - s.m.lastTsc;
    AllTheSame(r.cores, s.m.loads, s.cur, 0);
    Averages(s, max, r);
    Decides(s, max, r);
    ShrinkStep(s.m.busy, t.m.busy, k, s.cur, c0);
    if k < 8 {
      ShrunkLittle(t.m.busy, k + 1, s.cur, c0);
      Scale(s.cur, c0, t.m.cycles);
      Scale(s.cur, t.m.cycles, 7 * s.m.cycles + d);
      WSmall(s.cur * t.m.cycles);
      Scale(t.m.cycles, 2, s.cur);
      IdleArithmetic(s.cur, max, t.m.busy, t.m.cycles, k == 7);
    }
  }

  lemma IdleArithmetic(n: nat, max: nat, busy: nat, c: nat, eighth: bool)
    requires n >= 2 && c >= 1 && c * 5 < U64 && n * c < U64 && n * c >= 2 * c
    requires 8 * busy <= 7 * (n * c) && (eighth ==> 1000 * busy <= 344 * (n * c))
    ensures !WantsUp(n, max, busy, c) && (eighth ==> WantsDown(n, busy, c))
  {
    hide W;
    WSmall(n * c);
    WSmall(c * 5);
    IdleNumbers(n * c, busy, c, eighth);
  }

  lemma IdleNumbers(p: nat, busy: nat, c: nat, eighth: bool)
    requires c >= 1 && p >= 2 * c && 8 * busy <= 7 * p && (eighth ==> 1000 * busy <= 344 * p)
    ensures p > busy && p - busy >= c / 5 && (eighth ==> p - busy > c * 5 / 4)
  {
    assert 5 * (c / 5) <= c && 4 * (c * 5 / 4) <= c * 5;
  }

  /** Cores that are idle all the time, two or more: one less is asked for once the waiting
      period has run out and eight idle intervals were averaged, and never one more. */
  lemma {:induction false} IdleAsksDown(s: Sys, max: nat, rs: seq<Reading>, c0: nat, k: nat) returns (j: nat)
    requires Inv(s, max) && IdleRun(s, max, rs, c0) && forall i :: 0 <= i < |rs| ==> |rs[i].cores| == max
    requires s.cur >= 2 && s.m.cycles >= c0 && k <= 7 && Shrunk(s.m.busy, k, s.cur, c0)
    requires |rs| > Wait(s) && |rs| > 7 - k
    ensures j < |rs| && (j <= Wait(s) || j <= 7 - k)
    ensures var qs := Requests(s, max, Calls(rs));
      && |qs| == |rs| && qs[j] == Some(s.cur - 1)
      && forall i :: 0 <= i < j ==> qs[i].None?
    decreases |rs|
  {
    hide Next, Observe, Shrunk, WantsUp, WantsDown;
    var r := rs[0];
    var t := Next(s, max, Call(r));
    var qs, rest := Requests(s, max, Calls(rs)), Requests(t, max, Calls(rs[1..]));
    CallsRun(s, max, rs);
    IdleStep(s, max, r, c0, k);
    Decides(s, max, r);
    RequestCount(t, max, rs[1..]);
    if Asked(s, max, r).Some? {
      j := 0;
    } else {
      var n := IdleAsksDown(t, max, rs[1..], c0, if k < 7 then k + 1 else 7);
      j := n + 1;
      forall i | 0 <= i < j ensures qs[i].None? {
        if i > 0 { assert qs[i] == rest[i - 1]; }
      }
    }
  }

  /** In particular from averages that count no more than all cores as busy, with intervals
      no shorter than their average. */
  lemma IdleLeadsDown(s: Sys, max: nat, rs: seq<Reading>) returns (j: nat)
    requires Inv(s, max) && s.cur >= 2 && s.m.busy <= s.cur * s.m.cycles
    requires IdleRun(s, max, rs, s.m.cycles) && forall i :: 0 <= i < |rs| ==> |rs[i].cores| == max
    requires |rs| >= 10
    ensures j < 10 && (j <= Wait(s) || j <= 7)
    ensures var qs := Requests(s, max, Calls(rs));
      && |qs| == |rs| && qs[j] == Some(s.cur - 1)
      && forall i :: 0 <= i < j ==> qs[i].None?
  {
    hide IdleRun, Next;
    assert Shrunk(s.m.busy, 0, s.cur, s.m.cycles);
    j := IdleAsksDown(s, max, rs, s.m.cycles, 0);
  }

  // ---- the program

  /** The monitor's static state and the two words it shares with the fast path. */
  class Controller {
    const max: nat
    const loads: array<nat>
    var busy: nat
    var cycles: nat
    var lastTsc: nat
    var waiting: bool
    var waitingN: nat
    var cur: nat
    var scaleTo: nat

    ghost predicate Valid()
      reads this, loads
    {
      loads.Length == max && Inv(State(), max)
    }

    function State(): (s: Sys)
      reads this, loads
    {
      Sys(Monitor(busy, cycles, lastTsc, waiting, waitingN, loads[..]), cur, scaleTo)
    }

    constructor (max: nat)
      requires max >= 1
      ensures Valid() && fresh(loads) && this.max == max && State() == Start(max)
    {
      this.max := max;
      loads := new nat[max](_ => 0);
      busy, cycles, lastTsc, waiting, waitingN, cur, scaleTo := 0, 0, 0, true, 0, 1, 0;
    }

    /** flexnic_scale_to */
    method ScaleTo(cores: nat) returns (ok: bool)
      modifies this`scaleTo
      ensures ok <==> old(scaleTo) == 0
      ensures scaleTo == if ok then cores else old(scaleTo)
    {
      if scaleTo != 0 { return false; }
      scaleTo := cores;
      return true;
    }

    /** The loop over the running cores. */
    method SumUp(r: Reading) returns (all: bool, spent: nat)
      requires Valid() && |r.cores| == max
      modifies loads
      ensures all <==> Missing(r.cores, cur) == cur
      ensures loads[..] == Read(r.cores, old(loads[..]), Missing(r.cores, cur))
      ensures all ==> spent == Spent(r.cores, old(loads[..]), cur)
    {
      hide Read, Spent, W;
      spent := 0;
      ghost var was := loads[..];
      ReadNone(r.cores, was);
      for i := 0 to cur
        invariant Missing(r.cores, i) == i
        invariant spent == Spent(r.cores, was, i)
        invariant loads[..] == Read(r.cores, was, i)
      {
        if r.cores[i].None? {
          MissingStays(r.cores, i, cur);
          return false, spent;
        }
        var x: int := r.cores[i].value;
        ReadOne(r.cores, was, i);
        spent := W(spent + W(x - loads[i]));
        ghost var before := loads[..];
        loads[i] := x;
        assert loads[..] == before[i := r.cores[i].value];
      }
      return true, spent;
    }

    /** flexnic_loadmon */
    method LoadMon(r: Reading) returns (asked: Option<nat>)
      requires Valid() && |r.cores| == max
      modifies this`busy, this`cycles, this`lastTsc, this`waiting, this`waitingN, this`scaleTo, loads
      ensures Valid()
      ensures State() == Next(old(State()), max, Call(r)) && asked == Asked(old(State()), max, r)
    {
      hide Read, Spent, Missing, Idle, W;
      ghost var s := State();
      var n := cur;
      var all, spent := SumUp(r);
      if !all { return None; }
      if lastTsc == 0 {
        lastTsc := r.tsc;
        return None;
      }
      var elapsed := W(r.tsc - lastTsc);
      lastTsc := r.tsc;
      busy := W(7 * busy + spent) / 8;
      cycles := W(7 * cycles + elapsed) / 8;
      if waiting {
        waitingN := waitingN + 1;
        if waitingN < 10 { return None; }
      }
      var idle := Idle(n, busy, cycles);
      if n > 1 && idle > W(cycles * 5) / 4 {
        var ok := ScaleTo(n - 1);
        waiting, waitingN := true, 0;
        return Some(n - 1);
      }
      if n < max && idle < cycles / 5 {
        var ok := ScaleTo(n + 1);
        waiting, waitingN := true, 0;
        return Some(n + 1);
      }
      return None;
    }

    /** The fast path takes up a pending request. */
    method TakeUp()
      requires Valid()
      modifies this`cur, this`scaleTo
      ensures Valid() && State() == Next(old(State()), max, Apply)
    {
      if scaleTo != 0 {
        cur := scaleTo;
        scaleTo := 0;
      }
    }
  }

  lemma ReadNone(cores: seq<Option<nat>>, loads: seq<nat>)
    ensures Read(cores, loads, 0) == loads && Spent(cores, loads, 0) == 0
  {
  }

  lemma ReadOne(cores: seq<Option<nat>>, loads: seq<nat>, i: nat)
    requires i < |cores| && i < |loads| && forall k :: 0 <= k <= i ==> cores[k].Some?
    ensures Read(cores, loads, i)[i] == loads[i]
    ensures Read(cores, loads, i + 1) == Read(cores, loads, i)[i := cores[i].value]
    ensures Spent(cores, loads, i + 1) == W(Spent(cores, loads, i) + W(cores[i].value - loads[i]))
  {
  }

  lemma {:induction false} MissingStays(cores: seq<Option<nat>>, i: nat, n: nat)
    requires i < n <= |cores| && Missing(cores, i) == i && cores[i].None?
    ensures Missing(cores, n) == i
  {
    if i + 1 < n { MissingStays(cores, i, n - 1); }
  }
}
