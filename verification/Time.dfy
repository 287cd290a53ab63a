/**
 The heartbeat and sleeping (src/kernel/time.rs, src/arch/aarch64/timer.rs). Deadlines are absolute,
 so late handlers do not make them drift, and a sleep counts whole ticks.
*/
module Time {
  import opened Wrappers
  import opened Bits

  const NANOSECONDS_PER_SECOND: nat := 1_000_000_000

  lemma DivCeilFacts(a: nat, b: nat)
    requires b >= 1
    ensures DivCeil(a, b) * b >= a && (forall t: nat :: t * b >= a ==> t >= DivCeil(a, b))
  {
    var (q, r) := ((a + b - 1) / b, (a + b - 1) % b);
    assert a + b - 1 == q * b + r;
    forall t: nat | t * b >= a
      ensures t >= q
    {
      Below(t, q, b);
    }
  }

  lemma Below(t: nat, q: int, b: nat)
    ensures t < q ==> t * b + b <= q * b
  {
    if t < q {
      SumTimes(t, q - t, b);
      Times(1, q - t, b);
    }
  }

  lemma SumTimes(m: nat, n: nat, b: nat)
    ensures (m + n) * b == m * b + n * b
  {
  }

  lemma Times(m: nat, n: nat, b: nat)
    requires m <= n
    ensures m * b <= n * b
  {
  }

  // ----- Durations in ticks

  datatype Duration = Duration(secs: nat, nanos: nat) {
    function Nanoseconds(): nat {
      secs * NANOSECONDS_PER_SECOND + nanos
    }
  }

  /** `ticks_from`: whole seconds exactly, the fraction rounded up. */
  function TicksFrom(d: Duration, rate: nat): nat {
    d.secs * rate + DivCeil(d.nanos * rate, NANOSECONDS_PER_SECOND)
  }

  /** Together they are the exact ceiling: the least number of ticks that is not too short. */
  lemma TicksAreCeiling(d: Duration, rate: nat)
    ensures TicksFrom(d, rate) == DivCeil(d.Nanoseconds() * rate, NANOSECONDS_PER_SECOND)
    ensures TicksFrom(d, rate) * NANOSECONDS_PER_SECOND >= d.Nanoseconds() * rate
  {
    var (n, f) := (d.secs * rate, d.nanos * rate);
    Spread(d.secs, d.nanos, rate, NANOSECONDS_PER_SECOND);
    DivCeilShift(n, f);
    DivCeilFacts(n * NANOSECONDS_PER_SECOND + f, NANOSECONDS_PER_SECOND);
    hide DivCeil;
  }

  lemma Spread(a: nat, b: nat, rate: nat, m: nat)
    ensures (a * m + b) * rate == a * rate * m + b * rate
  {
  }

  lemma DivCeilShift(n: nat, f: nat)
    ensures DivCeil(n * NANOSECONDS_PER_SECOND + f, NANOSECONDS_PER_SECOND) == n + DivCeil(f, NANOSECONDS_PER_SECOND)
  {
  }

  // ----- The timer

  /** The counter, the deadline, and how many timer interrupts have been handled. */
  datatype Clock = Clock(count: nat, compare: nat, ticks: nat)

  /** Time passes. */
  predicate Elapses(c: Clock, c': Clock) {
    c'.count >= c.count && c'.compare == c.compare && c'.ticks == c.ticks
  }

  /**
   The deadline has passed and its interrupt is handled: the next one is the first whole intervals later and
   still ahead.
  */
  ghost predicate Fires(c: Clock, c': Clock, interval: nat) {
    && c.count >= c.compare && c'.count >= c.count && c'.ticks == c.ticks + 1
    && NextDeadline(c.compare, c'.compare, interval, c'.count)
  }

  ghost predicate NextDeadline(from: nat, to: nat, interval: nat, count: nat) {
    to > count && exists k: nat :: Periods(from, to, interval, k) && (k > 1 ==> to - interval <= count)
  }

  predicate Periods(from: nat, to: nat, interval: nat, k: nat) {
    k >= 1 && to == from + k * interval
  }

  ghost predicate Next(c: Clock, c': Clock, interval: nat) {
    Elapses(c, c') || Fires(c, c', interval)
  }

  class Timer {
    const interval: nat
    var count: nat
    var compare: nat
    var ticks: nat

    function Now(): Clock
      reads this
    {
      Clock(count, compare, ticks)
    }

    /** `start`: the first deadline is an interval from now. */
    constructor (interval: nat, count: nat)
      ensures this.interval == interval && Now() == Clock(count, count + interval, 0)
    {
      this.interval := interval;
      this.count := count;
      compare := count + interval;
      ticks := 0;
    }

    /** Reading the counter takes time. */
    method ReadCount(delay: nat) returns (r: nat)
      modifies this`count
      ensures count == old(count) + delay && r == count
    {
      count := count + delay;
      r := count;
    }

    /**
     Steps the deadline by whole intervals until it is past the counter. Each pass reads the counter after
     a delay of its own; without enough passes the loop is still at it, and nothing has been written.
    */
    method Rearm(delays: seq<nat>) returns (returned: bool)
      modifies this`count, this`compare
      ensures match FirstPast(old(count), old(compare), interval, delays)
              case None => !returned && compare == old(compare) && count >= old(count)
              case Some((c, deadline)) => returned && count == c && compare == deadline
    {
      var deadline: nat := compare;
      var i := 0;
      while i < |delays|
        invariant i <= |delays| && compare == old(compare) && count >= old(count)
        invariant FirstPast(old(count), old(compare), interval, delays) ==
                    FirstPast(count, deadline, interval, delays[i..])
      {
        deadline := deadline + interval;
        var now := ReadCount(delays[i]);
        if deadline > now {
          compare := deadline;
          return true;
        }
        i := i + 1;
      }
      return false;
    }

    /** The timer interrupt: arm the next deadline, then count this one. */
    method HandleInterrupt(delays: seq<nat>) returns (returned: bool)
      requires compare <= count
      modifies this
      ensures returned <==> FirstPast(old(count), old(compare), interval, delays).Some?
      ensures if returned then Fires(old(Now()), Now(), interval) else Elapses(old(Now()), Now())
    {
      returned := Rearm(delays);
      FirstPastFacts(old(count), old(compare), interval, delays);
      if returned {
        ticks := ticks + 1;
      }
    }

    /** Waiting for an interrupt: some time passes, and the timer's is handled if it is due. */
    method Wait(elapse: nat, delays: seq<nat>)
      modifies this
      ensures Waited(old(Now()), Now(), interval)
      ensures var c := old(count) + elapse;
              var handled := c >= old(compare) && FirstPast(c, old(compare), interval, delays).Some?;
              ticks == old(ticks) + if handled then 1 else 0
    {
      count := count + elapse;
      ghost var mid := Now();
      if count >= compare {
        var _ := HandleInterrupt(delays);
      }
      assert Elapses(old(Now()), mid) && Next(mid, Now(), interval);
    }

    /**
     Waits until the heartbeat has advanced one tick more than the duration has; `woke` says whether the
     given waits were enough for that. `clocks` is the clock before each wait made, and after the last.
    */
    method Sleep(duration: Duration, hz: nat, waits: seq<(nat, seq<nat>)>)
      returns (woke: bool, ghost clocks: seq<Clock>)
      modifies this
      ensures woke <==> ticks >= old(ticks) + TicksFrom(duration, hz) + 1
      ensures WaitedFor(clocks, old(ticks) + TicksFrom(duration, hz) + 1, interval)
      ensures 1 <= |clocks| <= |waits| + 1 && (!woke ==> |clocks| == |waits| + 1)
      ensures clocks[0] == old(Now()) && clocks[|clocks| - 1] == Now()
      ensures Paced(old(Now()), Now(), interval)
      ensures woke && OnBeat(old(Now()), interval) ==> count >= old(count) + TicksFrom(duration, hz) * interval
    {
      clocks := [Now()];
      ghost var steps := [Now()];
      var target := ticks + TicksFrom(duration, hz) + 1;
      var i := 0;
      while ticks < target && i < |waits|
        invariant i <= |waits| && Run(steps, interval) && steps[0] == old(Now()) && steps[|steps| - 1] == Now()
        invariant |clocks| == i + 1 && clocks[0] == old(Now()) && clocks[i] == Now()
        invariant WaitedFor(clocks, target, interval)
        decreases |waits| - i
      {
        ghost var before := Now();
        hide Fires, TicksFrom;
        Wait(waits[i].0, waits[i].1);
        ghost var mid: Clock :| Elapses(before, mid) && Next(mid, Now(), interval);
        assert Next(before, mid, interval);
        steps := steps + [mid, Now()];
        clocks := clocks + [Now()];
        i := i + 1;
      }
      woke := ticks >= target;
      hide Run, Paced, OnBeat, TicksFrom;
      RunPaced(steps, interval, |steps| - 1);
      if woke && OnBeat(steps[0], interval) {
        TicksTakeIntervals(steps, interval, TicksFrom(duration, hz));
      }
    }
  }

  /** Each wait began short of the target, and was some time passing and at most one interrupt. */
  ghost predicate WaitedFor(clocks: seq<Clock>, target: nat, interval: nat) {
    forall i | 0 <= i < |clocks| - 1 :: clocks[i].ticks < target && Waited(clocks[i], clocks[i + 1], interval)
  }

  ghost predicate Waited(c: Clock, c': Clock, interval: nat) {
    exists mid: Clock :: Elapses(c, mid) && Next(mid, c', interval)
  }

  // ----- When a handler returns

  /** The counter and the deadline at the first pass that gets past the counter. */
  function FirstPast(count: nat, deadline: nat, interval: nat, delays: seq<nat>): Option<(nat, nat)>
    decreases |delays|
  {
    if delays == [] then None
    else
      var (c, d) := (count + delays[0], deadline + interval);
      if d > c then Some((c, d)) else FirstPast(c, d, interval, delays[1..])
  }

  /** The new deadline is after the counter, whole intervals after the old one, and none skipped had not passed. */
  lemma {:induction false} FirstPastFacts(count: nat, deadline: nat, interval: nat, delays: seq<nat>)
    ensures match FirstPast(count, deadline, interval, delays)
            case None => true
            case Some((c, d)) => c >= count && NextDeadline(deadline, d, interval, c)
    decreases |delays|
  {
    if delays != [] {
      var (c, d) := (count + delays[0], deadline + interval);
      if d > c {
        assert Periods(deadline, d, interval, 1);
      } else {
        FirstPastFacts(c, d, interval, delays[1..]);
        match FirstPast(c, d, interval, delays[1..]) {
          case None =>
          case Some((c', d')) =>
            var k: nat :| Periods(d, d', interval, k) && (k > 1 ==> d' - interval <= c');
            assert (k + 1) * interval == k * interval + interval;
            assert Periods(deadline, d', interval, k + 1);
        }
      }
    }
  }

  /** Every such deadline is one that some passes come to, so runs of the clock are runs of the handler and no more. */
  lemma FiresIsRearm(c: Clock, c': Clock, interval: nat)
    requires c.count >= c.compare
    ensures Fires(c, c', interval) <==>
              && c'.ticks == c.ticks + 1
              && exists delays :: FirstPast(c.count, c.compare, interval, delays) == Some((c'.count, c'.compare))
  {
    if Fires(c, c', interval) {
      var k: nat :| Periods(c.compare, c'.compare, interval, k) && (k > 1 ==> c'.compare - interval <= c'.count);
      var delays := AllAtOnce(c'.count - c.count, c.count, c.compare, c'.compare, interval, k);
      assert FirstPast(c.count, c.compare, interval, delays) == Some((c'.count, c'.compare));
    }
    if delays :| FirstPast(c.count, c.compare, interval, delays) == Some((c'.count, c'.compare)) {
      FirstPastFacts(c.count, c.compare, interval, delays);
    }
  }

  /** Passes of which only the first takes any time. */
  lemma {:induction false} AllAtOnce(delay: nat, count: nat, deadline: nat, end: nat, interval: nat, k: nat)
    returns (delays: seq<nat>)
    requires Periods(deadline, end, interval, k) && end > count + delay && (k > 1 ==> end - interval <= count + delay)
    ensures FirstPast(count, deadline, interval, delays) == Some((count + delay, end))
    decreases k
  {
    OnePeriodLess(deadline, end, interval, k);
    hide Periods;
    if k == 1 {
      delays := [delay];
    } else {
      var rest := AllAtOnce(0, count + delay, deadline + interval, end, interval, k - 1);
      delays := [delay] + rest;
    }
  }

  lemma OnePeriodLess(from: nat, to: nat, interval: nat, k: nat)
    requires Periods(from, to, interval, k)
    ensures if k == 1 then to == from + interval
            else Periods(from + interval, to, interval, k - 1) && from + interval <= to - interval
  {
    SumTimes(1, k - 1, interval);
    if k > 1 {
      Times(1, k - 1, interval);
    }
  }

  function Total(delays: seq<nat>): nat {
    if delays == [] then 0 else delays[0] + Total(delays[1..])
  }

  /** More passes than there are counts from the deadline to where the counter gets meanwhile. */
  predicate Ample(count: nat, deadline: nat, delays: seq<nat>) {
    deadline + |delays| > count + Total(delays)
  }

  lemma {:induction false} AmpleReturns(count: nat, deadline: nat, interval: nat, delays: seq<nat>)
    requires interval > 0 && deadline <= count && Ample(count, deadline, delays)
    ensures FirstPast(count, deadline, interval, delays).Some?
    decreases |delays|
  {
    if delays != [] {
      var (c, d) := (count + delays[0], deadline + interval);
      if d <= c {
        AmpleReturns(c, d, interval, delays[1..]);
      }
    }
  }

  lemma {:induction false} NoIntervalNoReturn(count: nat, deadline: nat, delays: seq<nat>)
    requires deadline <= count
    ensures FirstPast(count, deadline, 0, delays) == None
    decreases |delays|
  {
    if delays != [] {
      NoIntervalNoReturn(count + delays[0], deadline, delays[1..]);
    }
  }

  /** The interval is zero exactly for a rate above the counter's frequency. */
  lemma ZeroInterval(frequency: nat, hz: nat)
    requires hz >= 1
    ensures Interval(frequency, hz) == 0 <==> frequency < hz
  {
    QuotientIsNat(frequency, hz);
    var q := frequency / hz;
    assert frequency == q * hz + frequency % hz;
    if q >= 1 {
      Times(1, q, hz);
    }
  }

  /**
   A handler's `rearm` gets past the counter exactly when the rate is at most the frequency: given passes
   enough it always does, and otherwise no number of passes is enough.
  */
  lemma RearmReturns(count: nat, deadline: nat, frequency: nat, hz: nat)
    requires hz >= 1 && deadline <= count
    ensures hz <= frequency ==>
              forall delays | Ample(count, deadline, delays) ::
                FirstPast(count, deadline, Interval(frequency, hz), delays).Some?
    ensures hz > frequency ==> forall delays :: FirstPast(count, deadline, Interval(frequency, hz), delays) == None
    ensures hz <= frequency <==> exists delays :: FirstPast(count, deadline, Interval(frequency, hz), delays).Some?
  {
    ZeroInterval(frequency, hz);
    var interval := Interval(frequency, hz);
    if hz <= frequency {
      forall delays | Ample(count, deadline, delays)
        ensures FirstPast(count, deadline, interval, delays).Some?
      {
        AmpleReturns(count, deadline, interval, delays);
      }
      var still := Still(count - deadline + 1);
      assert Ample(count, deadline, still);
    } else {
      forall delays
        ensures FirstPast(count, deadline, interval, delays) == None
      {
        NoIntervalNoReturn(count, deadline, delays);
      }
    }
  }

  /** Passes that take no time at all. */
  function Still(n: nat): (delays: seq<nat>)
    ensures |delays| == n && Total(delays) == 0
  {
    if n == 0 then [] else [0] + Still(n - 1)
  }

  // ----- How ticks pace time

  /**
   Since `c0`: deadlines are whole intervals after its deadline, one at least per tick, and each tick waited for
   its own.
  */
  ghost predicate Paced(c0: Clock, c: Clock, interval: nat) {
    && c.count >= c0.count && c.ticks >= c0.ticks
    && (exists k: nat :: k >= c.ticks - c0.ticks && c.compare == c0.compare + k * interval)
    && (c.ticks > c0.ticks ==> c.count >= c0.compare + (c.ticks - c0.ticks - 1) * interval)
  }

  lemma PacedStart(c: Clock, interval: nat)
    ensures Paced(c, c, interval)
  {
    assert c.compare == c.compare + 0 * interval;
  }

  lemma PacedNext(c0: Clock, c: Clock, c': Clock, interval: nat)
    requires Paced(c0, c, interval) && Next(c, c', interval)
    ensures Paced(c0, c', interval)
  {
    var k: nat :| k >= c.ticks - c0.ticks && c.compare == c0.compare + k * interval;
    if Fires(c, c', interval) && !Elapses(c, c') {
      var j: nat :| Periods(c.compare, c'.compare, interval, j);
      MorePeriods(c0.compare, k, j, interval);
      Times(c.ticks - c0.ticks, k, interval);
      assert c'.compare == c0.compare + (k + j) * interval;
    } else {
      assert c'.compare == c0.compare + k * interval;
    }
  }

  lemma MorePeriods(from: nat, k: nat, j: nat, interval: nat)
    ensures from + k * interval + j * interval == from + (k + j) * interval
  {
  }

  /** Any run of the clock, handlers as late as they like. */
  ghost predicate Run(clocks: seq<Clock>, interval: nat) {
    clocks != [] && forall i | 0 <= i < |clocks| - 1 :: Next(clocks[i], clocks[i + 1], interval)
  }

  lemma {:induction false} RunPaced(clocks: seq<Clock>, interval: nat, n: nat)
    requires Run(clocks, interval) && n < |clocks|
    ensures Paced(clocks[0], clocks[n], interval)
    decreases n
  {
    hide Next;
    if n == 0 {
      PacedStart(clocks[0], interval);
    } else {
      RunPaced(clocks, interval, n - 1);
      PacedNext(clocks[0], clocks[n - 1], clocks[n], interval);
    }
  }

  /** Every deadline stays congruent to the first modulo the interval. */
  lemma DeadlinesCongruent(clocks: seq<Clock>, interval: nat, n: nat)
    requires Run(clocks, interval) && n < |clocks| && interval > 0
    ensures clocks[n].compare % interval == clocks[0].compare % interval
  {
    RunPaced(clocks, interval, n);
    hide Run;
    var k: nat :| k >= clocks[n].ticks - clocks[0].ticks && clocks[n].compare == clocks[0].compare + k * interval;
    Congruent(clocks[0].compare, k, interval);
  }

  lemma Congruent(a: nat, k: nat, m: nat)
    requires m > 0
    ensures (a + k * m) % m == a % m
  {
    var q := a / m;
    QuotientIsNat(a, m);
    assert a == q * m + a % m;
    MorePeriods(a % m, q, k, m);
    DivUnique(a + k * m, m, q + k, a % m);
  }

  lemma EnoughTicks(c0: Clock, c: Clock, interval: nat, t: nat)
    requires Paced(c0, c, interval) && c0.count < c0.compare && c.ticks >= c0.ticks + t + 1
    ensures c.count > c0.count + t * interval
  {
    Times(t, c.ticks - c0.ticks - 1, interval);
  }

  // ----- Sleeping long enough

  /** The interval is as long as it can be without `hz` of them outlasting a second. */
  lemma IntervalIsLongest(frequency: nat, hz: nat)
    requires hz >= 1
    ensures var i := Interval(frequency, hz); i * hz <= frequency < (i + 1) * hz
  {
    QuotientIsNat(frequency, hz);
    assert frequency == frequency / hz * hz + frequency % hz;
  }

  /** `init`'s interval. */
  function Interval(frequency: nat, hz: nat): nat
    requires hz >= 1
  {
    QuotientIsNat(frequency, hz);
    frequency / hz
  }

  /** The counter has moved by at least the duration. */
  predicate LongEnough(from: nat, to: nat, d: Duration, frequency: nat) {
    (to - from) * NANOSECONDS_PER_SECOND >= d.Nanoseconds() * frequency
  }

  /** A sleep from `c0`: a run of the clock that ends with enough ticks on it. */
  ghost predicate Slept(c0: Clock, clocks: seq<Clock>, d: Duration, hz: nat, interval: nat) {
    Run(clocks, interval) && clocks[0] == c0 && clocks[|clocks| - 1].ticks >= c0.ticks + TicksFrom(d, hz) + 1
  }

  /** How far ahead the next deadline is; how far past a whole number of intervals, if it is overdue. */
  function Lead(c: Clock, interval: nat): int
    requires interval > 0
  {
    if c.count < c.compare then c.compare - c.count else -((c.count - c.compare) % interval)
  }

  /** No deadline is overdue, or it is overdue by whole intervals. */
  predicate OnBeat(c: Clock, interval: nat) {
    c.count < c.compare || (interval > 0 && (c.count - c.compare) % interval == 0)
  }

  /** From there each tick after the first takes a whole interval, however late the handlers run. */
  lemma {:induction false} TicksTakeIntervals(clocks: seq<Clock>, interval: nat, t: nat)
    requires Run(clocks, interval) && OnBeat(clocks[0], interval)
    requires clocks[|clocks| - 1].ticks >= clocks[0].ticks + t + 1
    ensures clocks[|clocks| - 1].count >= clocks[0].count + t * interval
  {
    var (c0, c) := (clocks[0], clocks[|clocks| - 1]);
    RunPaced(clocks, interval, |clocks| - 1);
    if c0.count < c0.compare {
      EnoughTicks(c0, c, interval, t);
    } else {
      var i := FirstTick(clocks, interval, 0);
      var (late, armed) := (clocks[i], clocks[i + 1]);
      var k: nat :| Periods(late.compare, armed.compare, interval, k);
      Overdue(c0.count, c0.compare, k, interval);
      RunFrom(clocks, interval, i + 1);
      if t > 0 {
        Times(t - 1, c.ticks - armed.ticks - 1, interval);
        assert (t - 1) * interval + interval == t * interval;
      }
    }
  }

  /** The first handler of a run from an overdue deadline. */
  lemma {:induction false} FirstTick(clocks: seq<Clock>, interval: nat, n: nat) returns (i: nat)
    requires Run(clocks, interval) && n < |clocks| && clocks[n].ticks == clocks[0].ticks < clocks[|clocks| - 1].ticks
    requires clocks[n].compare == clocks[0].compare && clocks[n].count >= clocks[0].count
    ensures i + 1 < |clocks| && Fires(clocks[i], clocks[i + 1], interval)
    ensures clocks[i].ticks == clocks[0].ticks && clocks[i].compare == clocks[0].compare
    ensures clocks[i].count >= clocks[0].count
    decreases |clocks| - n
  {
    hide Fires;
    assert Next(clocks[n], clocks[n + 1], interval);
    if Fires(clocks[n], clocks[n + 1], interval) {
      i := n;
    } else {
      i := FirstTick(clocks, interval, n + 1);
    }
  }

  /** The rest of a run is paced too. */
  lemma RunFrom(clocks: seq<Clock>, interval: nat, n: nat)
    requires Run(clocks, interval) && n < |clocks|
    ensures Paced(clocks[n], clocks[|clocks| - 1], interval)
  {
    var rest := clocks[n..];
    hide Next, Paced;
    forall i | 0 <= i < |rest| - 1
      ensures Next(rest[i], rest[i + 1], interval)
    {
      assert rest[i] == clocks[n + i] && rest[i + 1] == clocks[n + i + 1];
    }
    RunPaced(rest, interval, |rest| - 1);
  }

  /** A deadline overdue by whole intervals is re-armed a whole interval or more from now. */
  lemma Overdue(count: nat, compare: nat, k: nat, interval: nat)
    requires interval > 0 && count >= compare && (count - compare) % interval == 0 && compare + k * interval > count
    ensures compare + k * interval >= count + interval
  {
    QuotientIsNat(count - compare, interval);
    var q := (count - compare) / interval;
    assert count - compare == q * interval;
    if k <= q {
      Times(k, q, interval);
      assert false;
    }
    Times(q + 1, k, interval);
    assert (q + 1) * interval == q * interval + interval;
  }

  /** When the rate divides the counter's frequency no such sleep ends early. */
  lemma SleepLongEnough(c0: Clock, clocks: seq<Clock>, d: Duration, frequency: nat, hz: nat)
    requires hz >= 1 && frequency % hz == 0 && Interval(frequency, hz) > 0 && OnBeat(c0, Interval(frequency, hz))
    requires Slept(c0, clocks, d, hz, Interval(frequency, hz))
    ensures LongEnough(c0.count, clocks[|clocks| - 1].count, d, frequency)
  {
    var interval := Interval(frequency, hz);
    var (c, t) := (clocks[|clocks| - 1], TicksFrom(d, hz));
    TicksTakeIntervals(clocks, interval, t);
    TicksAreCeiling(d, hz);
    assert frequency == interval * hz;
    hide Slept, TicksFrom;
    LongEnoughInCounts(d.Nanoseconds(), t, hz, interval, c.count - c0.count);
  }

  lemma LongEnoughInCounts(nanos: nat, t: nat, hz: nat, interval: nat, elapsed: nat)
    requires t * NANOSECONDS_PER_SECOND >= nanos * hz && elapsed >= t * interval
    ensures elapsed * NANOSECONDS_PER_SECOND >= nanos * (interval * hz)
  {
    Times(nanos * hz, t * NANOSECONDS_PER_SECOND, interval);
    Times(t * interval, elapsed, NANOSECONDS_PER_SECOND);
    Reorder(nanos, hz, interval);
    Reorder(t, NANOSECONDS_PER_SECOND, interval);
    Reorder(t, interval, NANOSECONDS_PER_SECOND);
  }

  lemma Reorder(a: nat, b: nat, c: nat)
    ensures a * b * c == a * (c * b) && a * b * c == a * c * b
  {
  }

  /** The clock `n` handlers later, each of them on time. */
  function OnTime(c: Clock, interval: nat, n: nat): Clock
    requires c.count < c.compare
  {
    if n == 0 then c else Clock(c.compare + (n - 1) * interval, c.compare + n * interval, c.ticks + n)
  }

  lemma {:induction false} Punctual(c: Clock, interval: nat, n: nat) returns (clocks: seq<Clock>)
    requires interval > 0 && c.count < c.compare
    ensures Run(clocks, interval) && clocks[0] == c && clocks[|clocks| - 1] == OnTime(c, interval, n)
    decreases n
  {
    if n == 0 {
      clocks := [c];
    } else {
      var before := Punctual(c, interval, n - 1);
      var (m, last, after) := (|before|, OnTime(c, interval, n - 1), OnTime(c, interval, n));
      assert c.compare + (n - 1) * interval + interval == c.compare + n * interval;
      assert n > 1 ==> c.compare + (n - 2) * interval + interval == c.compare + (n - 1) * interval;
      var due := last.(count := last.compare);
      assert Periods(due.compare, after.compare, interval, 1);
      assert Fires(due, after, interval) && Elapses(last, due);
      clocks := before + [due, after];
      forall i | 0 <= i < |clocks| - 1
        ensures Next(clocks[i], clocks[i + 1], interval)
      {
        if i < m - 1 {
          assert Next(before[i], before[i + 1], interval);
        }
      }
    }
  }

  /** The shortest sleep of `n` ticks from any clock: one handler at once if it is overdue, the others on time. */
  lemma Shortest(c0: Clock, interval: nat, n: nat) returns (clocks: seq<Clock>)
    requires interval > 0 && n > 0
    ensures Run(clocks, interval) && clocks[0] == c0
    ensures clocks[|clocks| - 1].ticks == c0.ticks + n + 1
    ensures clocks[|clocks| - 1].count == c0.count + Lead(c0, interval) + n * interval
  {
    assert (n - 1) * interval + interval == n * interval;
    if c0.count < c0.compare {
      clocks := Punctual(c0, interval, n + 1);
    } else {
      var (over, k) := (c0.count - c0.compare, (c0.count - c0.compare) / interval + 1);
      QuotientIsNat(over, interval);
      assert over == (k - 1) * interval + over % interval;
      assert (k - 1) * interval + interval == k * interval;
      var c1 := Clock(c0.count, c0.compare + k * interval, c0.ticks + 1);
      assert Periods(c0.compare, c1.compare, interval, k);
      assert c1.compare - interval <= c1.count;
      assert Fires(c0, c1, interval);
      var rest := Punctual(c1, interval, n);
      clocks := [c0] + rest;
      forall i | 0 <= i < |clocks| - 1
        ensures Next(clocks[i], clocks[i + 1], interval)
      {
        if i > 0 {
          assert Next(rest[i - 1], rest[i], interval);
        }
      }
    }
  }

  /**
   When the rate does not divide the frequency, from any clock some sleep is cut short, by as many counts as one
   likes.
  */
  lemma RateCutsShort(c0: Clock, frequency: nat, hz: nat, lost: nat) returns (clocks: seq<Clock>, d: Duration)
    requires hz >= 1 && frequency % hz != 0 && Interval(frequency, hz) > 0
    ensures Slept(c0, clocks, d, hz, Interval(frequency, hz))
    ensures !LongEnough(c0.count, clocks[|clocks| - 1].count + lost, d, frequency)
  {
    var (interval, r) := (Interval(frequency, hz), frequency % hz);
    var lead := Lead(c0, interval);
    var secs: nat := if lead < 0 then lost + 1 else lead + lost + 1;
    d := Duration(secs, 0);
    clocks := WholeSeconds(c0, secs, hz, interval);
    assert frequency == interval * hz + r;
    Reorder(secs, interval, hz);
    SumTimes(interval * hz, r, secs);
    Times(1, r, secs);
    ShortBy(clocks[|clocks| - 1].count + lost - c0.count, secs, frequency);
  }

  /** When it does divide the frequency, a sleep is never short by as much as an interval. */
  lemma ShortByLessThanInterval(c0: Clock, clocks: seq<Clock>, d: Duration, frequency: nat, hz: nat)
    requires hz >= 1 && frequency % hz == 0 && Interval(frequency, hz) > 0
    requires Slept(c0, clocks, d, hz, Interval(frequency, hz))
    ensures LongEnough(c0.count, clocks[|clocks| - 1].count + Interval(frequency, hz) - 1, d, frequency)
  {
    var interval := Interval(frequency, hz);
    var (c, t) := (clocks[|clocks| - 1], TicksFrom(d, hz));
    AlmostIntervals(clocks, interval, t);
    TicksAreCeiling(d, hz);
    assert frequency == interval * hz;
    hide Slept, TicksFrom;
    LongEnoughInCounts(d.Nanoseconds(), t, hz, interval, c.count + interval - 1 - c0.count);
  }

  lemma AlmostIntervals(clocks: seq<Clock>, interval: nat, t: nat)
    requires Run(clocks, interval) && interval > 0 && clocks[|clocks| - 1].ticks >= clocks[0].ticks + t + 1
    ensures clocks[|clocks| - 1].count + interval - 1 >= clocks[0].count + t * interval
  {
    var (c0, c) := (clocks[0], clocks[|clocks| - 1]);
    RunPaced(clocks, interval, |clocks| - 1);
    if c0.count < c0.compare {
      EnoughTicks(c0, c, interval, t);
    } else if t > 0 {
      var i := FirstTick(clocks, interval, 0);
      var armed := clocks[i + 1];
      RunFrom(clocks, interval, i + 1);
      Times(t - 1, c.ticks - armed.ticks - 1, interval);
      assert (t - 1) * interval + interval == t * interval;
    }
  }

  /** When a deadline is overdue by part of an interval, a sleep of one second is cut short. */
  lemma OverdueCutsShort(c0: Clock, frequency: nat, hz: nat) returns (clocks: seq<Clock>, d: Duration)
    requires hz >= 1 && frequency % hz == 0 && Interval(frequency, hz) > 0 && !OnBeat(c0, Interval(frequency, hz))
    ensures Slept(c0, clocks, d, hz, Interval(frequency, hz))
    ensures !LongEnough(c0.count, clocks[|clocks| - 1].count, d, frequency)
  {
    var interval := Interval(frequency, hz);
    d := Duration(1, 0);
    clocks := WholeSeconds(c0, 1, hz, interval);
    assert frequency == interval * hz;
    ShortBy(clocks[|clocks| - 1].count - c0.count, 1, frequency);
  }

  lemma WholeSeconds(c0: Clock, secs: nat, hz: nat, interval: nat) returns (clocks: seq<Clock>)
    requires hz >= 1 && interval > 0 && secs > 0
    ensures Slept(c0, clocks, Duration(secs, 0), hz, interval)
    ensures clocks[|clocks| - 1].count == c0.count + Lead(c0, interval) + secs * (interval * hz)
  {
    Times(1, secs, hz);
    assert TicksFrom(Duration(secs, 0), hz) == secs * hz;
    clocks := Shortest(c0, interval, secs * hz);
    Reorder(secs, hz, interval);
  }

  lemma ShortBy(elapsed: int, secs: nat, frequency: nat)
    requires elapsed < secs * frequency
    ensures elapsed * NANOSECONDS_PER_SECOND < Duration(secs, 0).Nanoseconds() * frequency
  {
    Reorder(secs, NANOSECONDS_PER_SECOND, frequency);
  }

  /** No sleep that starts here ends early, whatever its duration and however late the handlers run. */
  ghost predicate NeverShort(c0: Clock, frequency: nat, hz: nat)
    requires hz >= 1
  {
    forall clocks: seq<Clock>, d: Duration | Slept(c0, clocks, d, hz, Interval(frequency, hz)) ::
      LongEnough(c0.count, clocks[|clocks| - 1].count, d, frequency)
  }

  /** With an interval of zero no handler returns, so no sleep ends at all. */
  lemma NoSleepEnds(c0: Clock, clocks: seq<Clock>, d: Duration, hz: nat)
    ensures !Slept(c0, clocks, d, hz, 0)
  {
    if Slept(c0, clocks, d, hz, 0) {
      var i := FirstTick(clocks, 0, 0);
    }
  }

  /** So that is exactly when none ends at all, or the rate divides the frequency and the sleep starts on the beat. */
  lemma SleepExact(c0: Clock, frequency: nat, hz: nat)
    requires hz >= 1
    ensures NeverShort(c0, frequency, hz) <==>
              frequency < hz || (frequency % hz == 0 && OnBeat(c0, Interval(frequency, hz)))
  {
    hide LongEnough, OnBeat, TicksFrom;
    ZeroInterval(frequency, hz);
    if frequency < hz {
      forall clocks: seq<Clock>, d: Duration
        ensures !Slept(c0, clocks, d, hz, 0)
      {
        NoSleepEnds(c0, clocks, d, hz);
      }
    } else if frequency % hz != 0 {
      var clocks, d := RateCutsShort(c0, frequency, hz, 0);
    } else if !OnBeat(c0, Interval(frequency, hz)) {
      var clocks, d := OverdueCutsShort(c0, frequency, hz);
    } else {
      forall clocks: seq<Clock>, d: Duration | Slept(c0, clocks, d, hz, Interval(frequency, hz))
        ensures LongEnough(c0.count, clocks[|clocks| - 1].count, d, frequency)
      {
        SleepLongEnough(c0, clocks, d, frequency, hz);
      }
    }
  }
}
