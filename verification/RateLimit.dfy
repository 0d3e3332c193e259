/** The client-side token bucket that paces every broker call. */
module RateLimit {
  import opened Decimals
  import opened Division

  datatype Bucket = Bucket(tokens: real, last: real)

  /** One `acquire`: what it asks for, the clock when it starts, and the clock when
      its sleep returns, should it have to sleep. */
  datatype Ask = Ask(tokens: real, first: real, second: real)

  datatype Answer = TooMany | Waited(seconds: real)

  /** Tokens a second, and the most that can be saved up. */
  datatype Pace = Pace(rate: real, capacity: real)

  function Least(a: real, b: real): real { if a <= b then a else b }
  function Most(a: real, b: real): real { if a <= b then b else a }

  /** `__init__`; `None` is the `ValueError`. */
  function PaceOf(ratePerMinute: int, burst: Option<int>): Option<Pace> {
    if ratePerMinute < 1 then None
    else
      var size := match burst case Some(b) => b case None => if ratePerMinute / 6 < 1 then 1 else ratePerMinute / 6;
      Some(Pace(ratePerMinute as real / 60.0, size as real))
  }

  /** `_refill` */
  function Refilled(p: Pace, b: Bucket, now: real): Bucket {
    Bucket(Least(p.capacity, b.tokens + Most(0.0, now - b.last) * p.rate), now)
  }

  predicate Waits(p: Pace, b: Bucket, a: Ask) {
    Refilled(p, b, a.first).tokens < a.tokens
  }

  function WaitFor(p: Pace, b: Bucket, a: Ask): real
    requires p.rate > 0.0
  {
    (a.tokens - Refilled(p, b, a.first).tokens) / p.rate
  }

  /** `acquire`, as a function of the bucket and of what the clock shows. */
  function Acquired(p: Pace, b: Bucket, a: Ask): (Bucket, Answer)
    requires p.rate > 0.0
  {
    if a.tokens > p.capacity then (b, TooMany)
    else
      var full := Refilled(p, b, a.first);
      if full.tokens >= a.tokens then (full.(tokens := full.tokens - a.tokens), Waited(0.0))
      else
        var later := Refilled(p, full, a.second);
        (later.(tokens := Most(0.0, later.tokens - a.tokens)), Waited((a.tokens - full.tokens) / p.rate))
  }

  /** Whatever clock the host has: the n-th reading it gives. */
  type Readings = nat -> real

  class HostClock {
    const readings: Readings
    var tick: nat

    constructor (readings: Readings)
      ensures this.readings == readings && tick == 0
    {
      this.readings := readings;
      tick := 0;
    }

    method Read() returns (now: real)
      modifies this
      ensures now == readings(old(tick)) && tick == old(tick) + 1
    {
      now := readings(tick);
      tick := tick + 1;
    }

    /** How long it really takes shows in the next reading. */
    method Sleep(seconds: real)
    {
    }
  }

  class TokenBucket {
    const clock: HostClock
    const pace: Pace
    var tokens: real
    var last: real

    constructor (clock: HostClock, pace: Pace)
      modifies clock
      ensures this.clock == clock && this.pace == pace
      ensures State() == Bucket(pace.capacity, clock.readings(old(clock.tick)))
      ensures clock.tick == old(clock.tick) + 1
    {
      this.clock, this.pace, tokens := clock, pace, pace.capacity;
      new;
      last := clock.Read();
    }

    function State(): Bucket
      reads this
    {
      Bucket(tokens, last)
    }

    method Refill()
      modifies this, clock
      ensures State() == Refilled(pace, old(State()), clock.readings(old(clock.tick)))
      ensures clock.tick == old(clock.tick) + 1
    {
      var now := clock.Read();
      var elapsed := Most(0.0, now - last);
      last := now;
      tokens := Least(pace.capacity, tokens + elapsed * pace.rate);
    }

    method Acquire(n: real) returns (r: Answer)
      requires pace.rate > 0.0
      modifies this, clock
      ensures var a := Ask(n, clock.readings(old(clock.tick)), clock.readings(old(clock.tick) + 1));
        (State(), r) == Acquired(pace, old(State()), a)
    {
      if n > pace.capacity {
        return TooMany;
      }
      Refill();
      if tokens >= n {
        tokens := tokens - n;
        return Waited(0.0);
      }
      var wait := (n - tokens) / pace.rate;
      clock.Sleep(wait);
      Refill();
      tokens := Most(0.0, tokens - n);
      r := Waited(wait);
    }
  }

  // ----- runs -----------------------------------------------------------------

  function After(p: Pace, b: Bucket, asks: seq<Ask>): Bucket
    requires p.rate > 0.0
    decreases |asks|
  {
    if asks == [] then b else After(p, Acquired(p, b, asks[0]).0, asks[1..])
  }

  function Taken(p: Pace, b: Bucket, a: Ask): real
    requires p.rate > 0.0
  {
    if Acquired(p, b, a).1.Waited? then a.tokens else 0.0
  }

  /** The tokens handed out over a run. */
  function Granted(p: Pace, b: Bucket, asks: seq<Ask>): real
    requires p.rate > 0.0
    decreases |asks|
  {
    if asks == [] then 0.0
    else
      Taken(p, b, asks[0]) + Granted(p, Acquired(p, b, asks[0]).0, asks[1..])
  }

  /** The clock never runs back, and a sleep lasts at least as long as it was asked to. */
  ghost predicate OnTime(p: Pace, b: Bucket, a: Ask)
    requires p.rate > 0.0
  {
    && a.tokens >= 0.0 && a.first >= b.last
    && (Waits(p, b, a) ==> a.second >= a.first + WaitFor(p, b, a))
  }

  ghost predicate Punctual(p: Pace, b: Bucket, asks: seq<Ask>)
    requires p.rate > 0.0
    decreases |asks|
  {
    asks == [] || (OnTime(p, b, asks[0]) && Punctual(p, Acquired(p, b, asks[0]).0, asks[1..]))
  }

  predicate Within(p: Pace, b: Bucket) {
    p.rate > 0.0 && 0.0 <= b.tokens <= p.capacity
  }

  lemma RefillWithin(p: Pace, b: Bucket, now: real)
    requires Within(p, b)
    ensures Within(p, Refilled(p, b, now)) && Refilled(p, b, now).tokens >= b.tokens
    ensures now >= b.last ==> Refilled(p, b, now).tokens <= b.tokens + (now - b.last) * p.rate
  {
    RealLe(0.0, Most(0.0, now - b.last), p.rate);
  }

  lemma SleptEnough(p: Pace, full: Bucket, a: Ask)
    requires Within(p, full) && full.tokens < a.tokens <= p.capacity
    requires a.second >= full.last + (a.tokens - full.tokens) / p.rate
    ensures Refilled(p, full, a.second).tokens >= a.tokens
  {
    var wait := (a.tokens - full.tokens) / p.rate;
    assert wait * p.rate == a.tokens - full.tokens;
    if wait < 0.0 {
      RealLt(wait, 0.0, p.rate);
    }
    RealLe(wait, a.second - full.last, p.rate);
  }

  /** What one acquire spends: tokens saved, or earned since the last reading. */
  lemma AcquireKeeps(p: Pace, b: Bucket, a: Ask)
    requires Within(p, b) && OnTime(p, b, a)
    ensures var (next, answer) := Acquired(p, b, a);
      && Within(p, next) && next.last >= b.last
      && (answer.Waited? ==> a.tokens + next.tokens <= b.tokens + (next.last - b.last) * p.rate)
  {
    if a.tokens <= p.capacity {
      RefillWithin(p, b, a.first);
      var full := Refilled(p, b, a.first);
      if full.tokens < a.tokens {
        SleptEnough(p, full, a);
        RefillWithin(p, full, a.second);
        var wait := (a.tokens - full.tokens) / p.rate;
        assert wait * p.rate == a.tokens - full.tokens;
        if wait < 0.0 {
          RealLt(wait, 0.0, p.rate);
          assert false;
        }
        SplitProduct(a.first - b.last, a.second - a.first, p.rate);
      }
    }
  }

  lemma SplitProduct(a: real, b: real, c: real)
    ensures (a + b) * c == a * c + b * c
  {
  }

  /** The bucket is never overfull and never in debt. */
  lemma {:induction false} RunStaysWithin(p: Pace, b: Bucket, asks: seq<Ask>)
    requires Within(p, b) && Punctual(p, b, asks)
    ensures Within(p, After(p, b, asks)) && After(p, b, asks).last >= b.last
    decreases |asks|
  {
    if asks != [] {
      AcquireKeeps(p, b, asks[0]);
      RunStaysWithin(p, Acquired(p, b, asks[0]).0, asks[1..]);
    }
  }

  /** Every bucket that can be built, unless its burst is negative, stays so from the start: at
      most a burst, or ten seconds' worth and at least one, is ever saved. */
  lemma BuiltBucketsStayWithin(ratePerMinute: int, burst: Option<int>, now: real, asks: seq<Ask>)
    requires PaceOf(ratePerMinute, burst).Some? && (burst.Some? ==> burst.value >= 0)
    requires var p := PaceOf(ratePerMinute, burst).value;
      p.rate > 0.0 && Punctual(p, Bucket(p.capacity, now), asks)
    ensures var p := PaceOf(ratePerMinute, burst).value;
      Within(p, After(p, Bucket(p.capacity, now), asks))
  {
    var size := if ratePerMinute / 6 < 1 then 1 else ratePerMinute / 6;
    assert size >= 1;
    var p := PaceOf(ratePerMinute, burst).value;
    RunStaysWithin(p, Bucket(p.capacity, now), asks);
  }

  /** What was taken and what is left, against what was saved and what was earned. */
  predicate Balanced(p: Pace, b: Bucket, taken: real, next: Bucket) {
    taken + next.tokens <= b.tokens + (next.last - b.last) * p.rate
  }

  lemma BalancesAdd(p: Pace, a: Bucket, b: Bucket, c: Bucket, here: real, later: real)
    requires Balanced(p, a, here, b) && Balanced(p, b, later, c)
    ensures Balanced(p, a, here + later, c)
  {
    SplitProduct(b.last - a.last, c.last - b.last, p.rate);
  }

  lemma AcquireBalances(p: Pace, b: Bucket, a: Ask)
    requires Within(p, b) && OnTime(p, b, a)
    ensures Balanced(p, b, Taken(p, b, a), Acquired(p, b, a).0) && Within(p, Acquired(p, b, a).0)
  {
    AcquireKeeps(p, b, a);
  }

  lemma {:induction false} RunBalances(p: Pace, b: Bucket, asks: seq<Ask>)
    requires Within(p, b) && Punctual(p, b, asks)
    ensures Balanced(p, b, Granted(p, b, asks), After(p, b, asks))
    decreases |asks|, 0
  {
    if asks != [] {
      AcquireBalances(p, b, asks[0]);
      RunBalancesFrom(p, b, Acquired(p, b, asks[0]).0, Taken(p, b, asks[0]), asks[1..]);
    }
  }

  lemma {:induction false} RunBalancesFrom(p: Pace, b: Bucket, next: Bucket, taken: real, rest: seq<Ask>)
    requires Within(p, next) && Punctual(p, next, rest) && Balanced(p, b, taken, next)
    ensures Balanced(p, b, taken + Granted(p, next, rest), After(p, next, rest))
    decreases |rest|, 1
  {
    RunBalances(p, next, rest);
    BalancesAdd(p, b, next, After(p, next, rest), taken, Granted(p, next, rest));
  }

  lemma {:induction false} PunctualTail(p: Pace, b: Bucket, before: seq<Ask>, window: seq<Ask>)
    requires p.rate > 0.0 && Punctual(p, b, before + window)
    ensures Punctual(p, b, before) && Punctual(p, After(p, b, before), window)
    decreases |before|
  {
    if before == [] {
      assert before + window == window;
    } else {
      assert (before + window)[0] == before[0] && (before + window)[1..] == before[1..] + window;
      PunctualTail(p, Acquired(p, b, before[0]).0, before[1..], window);
    }
  }

  /** No more granted between two moments than one full bucket plus the rate times the time. */
  predicate Conforms(p: Pace, granted: real, from: real, to: real) {
    granted <= p.capacity + (to - from) * p.rate
  }

  /** The rate limit, over every window of consecutive acquires of every run: from the
      window's first clock reading to its last, no more is granted than one full bucket
      plus the rate times the time. */
  lemma WindowConforms(p: Pace, start: Bucket, before: seq<Ask>, window: seq<Ask>)
    requires Within(p, start) && Punctual(p, start, before + window)
    requires window != [] && window[0].tokens <= p.capacity
    ensures var b := After(p, start, before);
      Conforms(p, Granted(p, b, window), window[0].first, After(p, b, window).last)
  {
    PunctualTail(p, start, before, window);
    RunStaysWithin(p, start, before);
    WindowFrom(p, After(p, start, before), window);
  }

  lemma WindowFrom(p: Pace, b: Bucket, window: seq<Ask>)
    requires Within(p, b) && Punctual(p, b, window) && window != [] && window[0].tokens <= p.capacity
    ensures Conforms(p, Granted(p, b, window), window[0].first, After(p, b, window).last)
  {
    RefillWithin(p, b, window[0].first);
    FromRefill(p, b, window);
    FullRun(p, Refilled(p, b, window[0].first), window, window[0].first);
  }

  lemma FullRun(p: Pace, full: Bucket, window: seq<Ask>, from: real)
    requires Within(p, full) && Punctual(p, full, window) && full.last == from
    ensures Conforms(p, Granted(p, full, window), from, After(p, full, window).last)
  {
    RunBalances(p, full, window);
    RunStaysWithin(p, full, window);
    BudgetOf(p, full, Granted(p, full, window), After(p, full, window));
  }

  lemma BudgetOf(p: Pace, full: Bucket, taken: real, next: Bucket)
    requires Within(p, full) && Within(p, next) && Balanced(p, full, taken, next)
    ensures Conforms(p, taken, full.last, next.last)
  {
  }

  lemma RefillTwice(p: Pace, b: Bucket, now: real)
    requires Within(p, b)
    ensures Refilled(p, Refilled(p, b, now), now) == Refilled(p, b, now)
  {
    assert Most(0.0, now - now) * p.rate == 0.0;
  }

  /** A run may as well start at its first refill. */
  lemma FromRefill(p: Pace, b: Bucket, window: seq<Ask>)
    requires Within(p, b) && Punctual(p, b, window) && window != [] && window[0].tokens <= p.capacity
    ensures var full := Refilled(p, b, window[0].first);
      && Punctual(p, full, window) && Granted(p, full, window) == Granted(p, b, window)
      && After(p, full, window) == After(p, b, window)
  {
    RefillTwice(p, b, window[0].first);
  }

  /** Where the limit fails: a sleep that returns at once. The bucket forgives the debt,
      and any number of tokens is granted in no time at all. */
  function Impatient(n: nat, now: real): seq<Ask> {
    if n == 0 then [] else [Ask(1.0, now, now)] + Impatient(n - 1, now)
  }

  lemma {:induction false} EarlyWakeupsBreakTheLimit(p: Pace, n: nat, now: real)
    requires p.rate > 0.0 && p.capacity >= 1.0
    ensures var b := Bucket(0.0, now);
      && Granted(p, b, Impatient(n, now)) == n as real
      && After(p, b, Impatient(n, now)).last == now
  {
    if n > 0 {
      var b := Bucket(0.0, now);
      var asks := Impatient(n, now);
      assert asks[1..] == Impatient(n - 1, now);
      assert Refilled(p, b, now) == b by {
        assert Most(0.0, now - now) * p.rate == 0.0;
      }
      assert Acquired(p, b, asks[0]).0 == b;
      EarlyWakeupsBreakTheLimit(p, n - 1, now);
    }
  }

  lemma PaidAfterWaiting(p: Pace, full: Bucket, n: real, second: real, wait: real)
    requires Within(p, full) && full.tokens < n <= p.capacity && full.last <= second
    requires wait * p.rate == n - full.tokens
    ensures var later := Refilled(p, full, second);
      Balanced(p, full, n, later.(tokens := Most(0.0, later.tokens - n))) <==> second >= full.last + wait
  {
    if second - full.last < wait {
      RealLt(second - full.last, wait, p.rate);
    } else {
      RealLe(wait, second - full.last, p.rate);
    }
  }

  /** And exactly there: one acquire is paid for, out of what was saved and earned since, if
      and only if it slept as long as it asked to. */
  lemma PaidForExactly(p: Pace, b: Bucket, a: Ask)
    requires Within(p, b) && 0.0 <= a.tokens <= p.capacity && b.last <= a.first <= a.second
    ensures Balanced(p, Refilled(p, b, a.first), a.tokens, Acquired(p, b, a).0) <==>
      (Waits(p, b, a) ==> a.second >= a.first + WaitFor(p, b, a))
  {
    RefillWithin(p, b, a.first);
    if Waits(p, b, a) {
      PaidAfterWaiting(p, Refilled(p, b, a.first), a.tokens, a.second, WaitFor(p, b, a));
    }
  }

  // ----- as configured ----------------------------------------------------------------------

  /** What a bucket is built for: so many calls a minute, and a burst of what was asked for, or of
      ten seconds' worth and never less than one. */
  lemma PaceExactly(ratePerMinute: int, burst: Option<int>)
    ensures PaceOf(ratePerMinute, burst).Some? <==> ratePerMinute >= 1
    ensures ratePerMinute >= 1 ==>
      var p := PaceOf(ratePerMinute, burst).value;
      && p.rate > 0.0 && 60.0 * p.rate == ratePerMinute as real
      && (burst.Some? ==> p.capacity == burst.value as real)
      && (burst.None? ==> p.capacity >= 1.0 && p.capacity <= Most(1.0, 10.0 * p.rate) < p.capacity + 1.0)
  {
    if ratePerMinute >= 1 && burst.None? {
      var n := ratePerMinute / 6;
      assert 6 * n <= ratePerMinute < 6 * n + 6;
    }
  }

  /** No more granted than a burst and so many a minute of the time between two moments. */
  predicate PerMinute(p: Pace, perMinute: real, granted: real, from: real, to: real) {
    60.0 * granted <= 60.0 * p.capacity + perMinute * (to - from)
  }

  /** The configured limit, over every window of every run of a bucket so built: in any time, at
      most a burst and the rate a minute of that time. */
  lemma ConfiguredRateHolds(ratePerMinute: int, burst: Option<int>, now: real, before: seq<Ask>, window: seq<Ask>)
    requires ratePerMinute >= 1 && (burst.Some? ==> burst.value >= 0)
    requires var p := PaceOf(ratePerMinute, burst).value;
      && p.rate > 0.0 && Punctual(p, Bucket(p.capacity, now), before + window)
      && window != [] && window[0].tokens <= p.capacity
    ensures var p := PaceOf(ratePerMinute, burst).value;
      var b := After(p, Bucket(p.capacity, now), before);
      PerMinute(p, ratePerMinute as real, Granted(p, b, window), window[0].first, After(p, b, window).last)
  {
    PaceExactly(ratePerMinute, burst);
    var p := PaceOf(ratePerMinute, burst).value;
    WindowConforms(p, Bucket(p.capacity, now), before, window);
    var b := After(p, Bucket(p.capacity, now), before);
    SixtyTimes(p, Granted(p, b, window), window[0].first, After(p, b, window).last, ratePerMinute as real);
  }

  lemma SixtyTimes(p: Pace, granted: real, from: real, to: real, perMinute: real)
    requires Conforms(p, granted, from, to) && 60.0 * p.rate == perMinute
    ensures PerMinute(p, perMinute, granted, from, to)
  {
    assert 60.0 * ((to - from) * p.rate) == (60.0 * p.rate) * (to - from);
  }

  /** And no more limit than that: whatever fits in a full bucket is granted, at once if it is
      there, and otherwise after just the time it takes to earn the rest. */
  lemma NeverStarves(p: Pace, b: Bucket, a: Ask)
    requires Within(p, b) && a.first >= b.last && a.tokens >= 0.0
    ensures var saved := b.tokens + (a.first - b.last) * p.rate;
      var answer := Acquired(p, b, a).1;
      && (answer == TooMany <==> a.tokens > p.capacity)
      && (a.tokens <= p.capacity && a.tokens <= saved ==> answer == Waited(0.0))
      && (a.tokens <= p.capacity && a.tokens > saved ==>
            answer.Waited? && answer.seconds > 0.0 && answer.seconds * p.rate == a.tokens - saved)
  {
    var full := Refilled(p, b, a.first);
    if full.tokens < a.tokens <= p.capacity {
      var wait := (a.tokens - full.tokens) / p.rate;
      assert wait * p.rate == a.tokens - full.tokens;
      if wait <= 0.0 {
        RealLe(wait, 0.0, p.rate);
      }
    }
  }
}
