/** The token bucket that paces file-system work, over exact time and exact tokens. */
module RateLimiter {

  datatype ThrottleMode = Normal | Warm | CpuPressure | IoPressure | Paused

  const MAX_BURST: real := 32.0
  const MAX_RATE: real := 500.0

  function RateOf(mode: ThrottleMode): real {
    match mode
    case Normal => 500.0
    case Warm => 300.0
    case CpuPressure => 150.0
    case IoPressure => 50.0
    case Paused => 0.0
  }

  /** The rate clamped to [1, 32]. */
  function CapacityFor(rate: real): real {
    if rate < 1.0 then 1.0 else if rate > MAX_BURST then MAX_BURST else rate
  }

  datatype Bucket = Bucket(rate: real, capacity: real, tokens: real, lastRefill: real)

  datatype Reply = Granted | Refused | SleepFor(seconds: real)

  function Fresh(mode: ThrottleMode, now: real): Bucket {
    var rate := RateOf(mode);
    Bucket(rate, CapacityFor(rate), CapacityFor(rate), now)
  }

  /** A new mode clamps the tokens and neither refills nor moves the clock. */
  function WithMode(b: Bucket, mode: ThrottleMode): Bucket {
    var rate := RateOf(mode);
    var capacity := CapacityFor(rate);
    Bucket(rate, capacity, if b.tokens > capacity then capacity else b.tokens, b.lastRefill)
  }

  /** The tokens that a span of time yields. */
  function Yield(span: real, rate: real): real {
    span * rate
  }

  function Refilled(b: Bucket, now: real): Bucket {
    var tokens := b.tokens + Yield(now - b.lastRefill, b.rate);
    b.(tokens := if tokens < b.capacity then tokens else b.capacity, lastRefill := now)
  }

  /** One round of the acquire loop; a paused bucket refuses before it looks at the clock. */
  function Attempted(b: Bucket, now: real): (Bucket, Reply) {
    if b.rate == 0.0 then (b, Refused)
    else
      var r := Refilled(b, now);
      if r.tokens >= 1.0 then (r.(tokens := r.tokens - 1.0), Granted)
      else
        var pause := (1.0 - r.tokens) / b.rate;
        (r, SleepFor(if pause > 0.001 then pause else 0.001))
  }

  class TokenBucketRateLimiter {
    var rate: real
    var capacity: real
    var tokens: real
    var lastRefill: real

    ghost function View(): Bucket
      reads this
    {
      Bucket(rate, capacity, tokens, lastRefill)
    }

    constructor (mode: ThrottleMode, now: real)
      ensures View() == Fresh(mode, now)
    {
      rate := RateOf(mode);
      capacity := CapacityFor(RateOf(mode));
      tokens := CapacityFor(RateOf(mode));
      lastRefill := now;
    }

    method SetMode(mode: ThrottleMode)
      modifies this
      ensures View() == WithMode(old(View()), mode)
    {
      rate := RateOf(mode);
      capacity := CapacityFor(rate);
      if tokens > capacity {
        tokens := capacity;
      }
    }

    method Attempt(now: real) returns (reply: Reply)
      modifies this
      ensures (View(), reply) == Attempted(old(View()), now)
    {
      hide Yield;
      if rate == 0.0 {
        return Refused;
      }
      tokens := tokens + Yield(now - lastRefill, rate);
      lastRefill := now;
      if tokens > capacity {
        tokens := capacity;
      }
      if tokens >= 1.0 {
        tokens := tokens - 1.0;
        return Granted;
      }
      var pause := (1.0 - tokens) / rate;
      return SleepFor(if pause > 0.001 then pause else 0.001);
    }

    /**
     The acquire loop with nobody else at the bucket: it ends after at most one sleep, however late
     the thread wakes up, and refuses only when paused.
     */
    method Acquire(now: real, late: real) returns (granted: bool, slept: real)
      requires Sound(View()) && late >= 0.0
      modifies this
      ensures granted <==> old(rate) != 0.0
      ensures Sound(View())
      ensures slept == 0.0 || (exists b :: Attempted(old(View()), now) == (b, SleepFor(slept)))
    {
      var reply := Attempt(now);
      slept := 0.0;
      AttemptKeepsSound(old(View()), now);
      if reply.SleepFor? {
        slept := reply.seconds;
        assert Attempted(old(View()), now) == (View(), SleepFor(slept));
        OneSleepIsEnough(old(View()), now, now + slept + late);
        AttemptKeepsSound(View(), now + slept + late);
        reply := Attempt(now + slept + late);
      }
      granted := reply == Granted;
    }
  }

  // ------------------------------------------------------------------ Invariant and liveness

  ghost predicate Sound(b: Bucket) {
    && 0.0 <= b.rate <= MAX_RATE
    && 1.0 <= b.capacity <= MAX_BURST
    && b.tokens <= b.capacity
  }

  lemma AttemptKeepsSound(b: Bucket, now: real)
    requires Sound(b)
    ensures Sound(Attempted(b, now).0)
  {
  }

  lemma DivideThenMultiply(a: real, b: real)
    requires b > 0.0
    ensures Yield(a / b, b) == a
  {
  }

  lemma YieldGrows(shorter: real, longer: real, slower: real, faster: real)
    requires shorter <= longer && 0.0 <= slower <= faster && 0.0 <= longer
    ensures Yield(shorter, slower) <= Yield(longer, faster)
  {
    assert shorter * slower <= longer * slower;
    assert longer * slower <= longer * faster;
  }

  lemma YieldAdds(a: real, b: real, rate: real)
    ensures Yield(a, rate) + Yield(b, rate) == Yield(a + b, rate)
    ensures Yield(0.0, rate) == 0.0
  {
  }

  ghost function One(reply: Reply): real {
    if reply == Granted then 1.0 else 0.0
  }

  /** One attempt spends at most what was there and what the time since the last refill yields. */
  lemma AttemptEffect(b: Bucket, now: real, rate: real)
    requires Sound(b) && b.tokens >= 0.0 && b.lastRefill <= now && b.rate <= rate
    ensures
      var (r, reply) := Attempted(b, now);
      && Sound(r) && r.tokens >= 0.0 && r.rate == b.rate && r.capacity == b.capacity
      && r.tokens + One(reply) <= b.tokens + Yield(now - b.lastRefill, rate)
      && r.tokens + One(reply) <= b.capacity
      && r.lastRefill == (if b.rate == 0.0 then b.lastRefill else now)
      && (b.rate == 0.0 ==> r == b && reply == Refused)
  {
    hide Yield;
    YieldAdds(0.0, 0.0, b.rate);
    YieldGrows(0.0, now - b.lastRefill, b.rate, b.rate);
    YieldGrows(now - b.lastRefill, now - b.lastRefill, b.rate, rate);
  }

  /** A caller is told to sleep for what is missing at the current rate, but for a millisecond at least. */
  lemma SleepExactly(b: Bucket, now: real)
    requires Sound(b) && b.rate > 0.0
    ensures
      var (r, reply) := Attempted(b, now);
      && (reply == Granted <==> b.tokens + Yield(now - b.lastRefill, b.rate) >= 1.0)
      && (reply.SleepFor? ==>
        && reply.seconds >= 0.001
        && (reply.seconds > 0.001 ==> Yield(reply.seconds, b.rate) == 1.0 - r.tokens)
        && Yield(reply.seconds, b.rate) >= 1.0 - r.tokens)
  {
    hide Yield;
    var (r, reply) := Attempted(b, now);
    if reply.SleepFor? {
      var missing := 1.0 - r.tokens;
      DivideThenMultiply(missing, b.rate);
      YieldGrows(missing / b.rate, reply.seconds, b.rate, b.rate);
    }
  }

  /** After the computed sleep the next attempt is granted, if nobody came in between. */
  lemma OneSleepIsEnough(b: Bucket, now: real, wake: real)
    requires Sound(b) && Attempted(b, now).1.SleepFor?
    requires wake >= now + Attempted(b, now).1.seconds
    ensures Attempted(Attempted(b, now).0, wake).1 == Granted
  {
    hide Yield;
    var (r, reply) := Attempted(b, now);
    var missing := 1.0 - r.tokens;
    DivideThenMultiply(missing, b.rate);
    YieldGrows(missing / b.rate, wake - now, b.rate, b.rate);
  }

  // ------------------------------------------------------------------ The modes in numbers

  /** `n` attempts at the same instant. */
  function Tries(now: real, n: nat): seq<Call> {
    if n == 0 then [] else [Try(now)] + Tries(now, n - 1)
  }

  /** An attempt at the instant of the last refill only looks at the tokens. */
  lemma AttemptAtOnce(b: Bucket)
    requires Sound(b) && b.rate > 0.0
    ensures
      var (b1, reply) := Attempted(b, b.lastRefill);
      if b.tokens >= 1.0 then b1 == b.(tokens := b.tokens - 1.0) && reply == Granted
      else b1 == b && reply != Granted
  {
    hide Yield;
    YieldAdds(0.0, 0.0, b.rate);
  }

  lemma {:induction false} TriesAreGranted(b: Bucket, m: nat, n: nat)
    requires Sound(b) && b.rate > 0.0 && b.tokens == m as real
    ensures Grants(b, Tries(b.lastRefill, n)) == if n <= m then n else m
    decreases n
  {
    hide Attempted;
    if n > 0 {
      AttemptAtOnce(b);
      var calls := Tries(b.lastRefill, n);
      assert calls[0] == Try(b.lastRefill) && calls[1..] == Tries(b.lastRefill, n - 1);
      TriesAreGranted(After(b, calls[0]), if m > 0 then m - 1 else 0, n - 1);
    }
  }

  lemma {:induction false} TriesAreTries(now: real, n: nat)
    ensures forall c :: c in Tries(now, n) ==> c.Try?
  {
    if n > 0 {
      TriesAreTries(now, n - 1);
    }
  }

  /** A new bucket grants a burst of exactly 32 at once in every mode that works, and nothing when paused. */
  lemma BurstIsExact(mode: ThrottleMode, now: real, n: nat)
    ensures Grants(Fresh(mode, now), Tries(now, n)) == if mode == Paused then 0 else if n <= 32 then n else 32
  {
    if mode == Paused {
      TriesAreTries(now, n);
      PausedGrantsNothing(Fresh(mode, now), Tries(now, n));
    } else {
      TriesAreGranted(Fresh(mode, now), 32, n);
    }
  }

  lemma {:induction false} PausedGrantsNothing(b: Bucket, calls: seq<Call>)
    requires b.rate == 0.0 && forall c :: c in calls ==> c.Try?
    ensures Grants(b, calls) == 0
    decreases |calls|
  {
    if calls != [] {
      PausedGrantsNothing(b, calls[1..]);
    }
  }

  /** The pause between two attempts that each mode sustains, in seconds. */
  function Pace(mode: ThrottleMode): real {
    match mode
    case Normal => 0.002
    case Warm => 1.0 / 300.0
    case CpuPressure => 1.0 / 150.0
    case IoPressure => 0.02
    case Paused => 1.0
  }

  ghost predicate Paced(calls: seq<Call>, last: real, pace: real)
    decreases |calls|
  {
    calls == [] || (calls[0].Try? && calls[0].now >= last + pace && Paced(calls[1..], calls[0].now, pace))
  }

  lemma PaceYieldsOne(mode: ThrottleMode)
    requires mode != Paused
    ensures RateOf(mode) > 0.0 && Pace(mode) > 0.0 && Yield(Pace(mode), RateOf(mode)) == 1.0
  {
  }

  /** A caller that keeps the pace of the mode is always granted, however empty the bucket was. */
  lemma {:induction false} PaceIsSustained(mode: ThrottleMode, b: Bucket, calls: seq<Call>)
    requires mode != Paused && Sound(b) && b.rate == RateOf(mode) && b.tokens >= 0.0
    requires Paced(calls, b.lastRefill, Pace(mode))
    ensures Grants(b, calls) == |calls|
    decreases |calls|
  {
    hide Yield, Pace, RateOf;
    PaceYieldsOne(mode);
    if calls != [] {
      var now := calls[0].now;
      YieldGrows(Pace(mode), now - b.lastRefill, b.rate, b.rate);
      AttemptEffect(b, now, b.rate);
      PaceIsSustained(mode, Attempted(b, now).0, calls[1..]);
    }
  }

  // ------------------------------------------------------------------ The window bound

  /** What callers do, in the order in which the lock admits them. */
  datatype Call = Mode(mode: ThrottleMode) | Try(now: real)

  function After(b: Bucket, call: Call): Bucket {
    match call
    case Mode(m) => WithMode(b, m)
    case Try(now) => Attempted(b, now).0
  }

  function Grants(b: Bucket, calls: seq<Call>): nat
    decreases |calls|
  {
    if calls == [] then 0
    else (if calls[0].Try? && Attempted(b, calls[0].now).1 == Granted then 1 else 0) + Grants(After(b, calls[0]),
      calls[1..])
  }

  function AfterAll(b: Bucket, calls: seq<Call>): Bucket
    decreases |calls|
  {
    if calls == [] then b else AfterAll(After(b, calls[0]), calls[1..])
  }

  /** All attempts lie between `start` and `stop`, in order. */
  ghost predicate InOrder(calls: seq<Call>, start: real, stop: real)
    decreases |calls|
  {
    start <= stop
    && (calls == [] || match calls[0]
      case Mode(_) => InOrder(calls[1..], start, stop)
      case Try(now) => start <= now && InOrder(calls[1..], now, stop))
  }

  /** Rates up to `rate` and capacities up to `burst`, now and after every call. */
  ghost predicate Limited(b: Bucket, calls: seq<Call>, rate: real, burst: real) {
    && Sound(b) && b.rate <= rate && b.capacity <= burst
    && forall c :: c in calls && c.Mode? ==> RateOf(c.mode) <= rate && CapacityFor(RateOf(c.mode)) <= burst
  }

  lemma LimitedTail(b: Bucket, calls: seq<Call>, rate: real, burst: real)
    requires Limited(b, calls, rate, burst) && calls != []
    ensures Limited(After(b, calls[0]), calls[1..], rate, burst)
  {
  }

  lemma {:induction false} LaterStart(calls: seq<Call>, early: real, start: real, stop: real)
    requires early <= start && InOrder(calls, start, stop)
    ensures InOrder(calls, early, stop)
    decreases |calls|
  {
    if calls != [] && calls[0].Mode? {
      LaterStart(calls[1..], early, start, stop);
    }
  }

  /** Grants are paid from the tokens at hand and from what the elapsed time can have refilled. */
  lemma {:induction false} GrantsArePaid(b: Bucket, calls: seq<Call>, stop: real, rate: real, burst: real)
    requires Limited(b, calls, rate, burst) && InOrder(calls, b.lastRefill, stop)
    requires b.tokens >= 0.0
    ensures Grants(b, calls) as real <= b.tokens + Yield(stop - b.lastRefill, rate)
    decreases |calls|
  {
    hide Yield, Attempted, Limited;
    LimitedNow(b, calls, rate, burst);
    if calls == [] {
      YieldAdds(0.0, 0.0, rate);
      YieldGrows(0.0, stop - b.lastRefill, rate, rate);
    } else {
      LimitedTail(b, calls, rate, burst);
      var b1 := After(b, calls[0]);
      if calls[0].Try? {
        var now := calls[0].now;
        AttemptEffect(b, now, rate);
        YieldAdds(now - b.lastRefill, stop - now, rate);
        LaterStart(calls[1..], b1.lastRefill, now, stop);
      }
      GrantsArePaid(b1, calls[1..], stop, rate, burst);
    }
  }

  lemma LimitedNow(b: Bucket, calls: seq<Call>, rate: real, burst: real)
    requires Limited(b, calls, rate, burst)
    ensures Sound(b) && b.rate <= rate && b.capacity <= burst
  {
  }

  /** Calls within a window of length `length` that starts after the last refill. */
  lemma {:induction false} WindowGrants(b: Bucket, calls: seq<Call>, start: real, length: real, rate: real, burst: real)
    requires Limited(b, calls, rate, burst) && b.tokens >= 0.0
    requires b.lastRefill <= start && InOrder(calls, start, start + length)
    ensures Grants(b, calls) as real <= burst + Yield(length, rate)
    decreases |calls|
  {
    hide Yield, Attempted, Limited;
    LimitedNow(b, calls, rate, burst);
    YieldAdds(0.0, 0.0, rate);
    YieldGrows(0.0, length, rate, rate);
    if calls != [] {
      LimitedTail(b, calls, rate, burst);
      var b1 := After(b, calls[0]);
      if calls[0].Try? {
        var now := calls[0].now;
        AttemptEffect(b, now, rate);
        LaterStart(calls[1..], start, now, start + length);
        if b.rate > 0.0 {
          GrantsArePaid(b1, calls[1..], start + length, rate, burst);
          YieldGrows(start + length - now, length, rate, rate);
        } else {
          WindowGrants(b1, calls[1..], start, length, rate, burst);
        }
      } else {
        WindowGrants(b1, calls[1..], start, length, rate, burst);
      }
    }
  }

  /** What holds of the bucket after any history of calls. */
  lemma {:induction false} HistoryKeepsSound(b: Bucket, calls: seq<Call>, stop: real)
    requires Sound(b) && b.tokens >= 0.0 && InOrder(calls, b.lastRefill, stop)
    ensures Sound(AfterAll(b, calls)) && AfterAll(b, calls).tokens >= 0.0 && AfterAll(b, calls).lastRefill <= stop
    decreases |calls|
  {
    hide Yield, Attempted;
    if calls != [] {
      var b1 := After(b, calls[0]);
      if calls[0].Try? {
        AttemptEffect(b, calls[0].now, b.rate);
        LaterStart(calls[1..], b1.lastRefill, calls[0].now, stop);
      }
      HistoryKeepsSound(b1, calls[1..], stop);
    }
  }

  /**
   After any history, any window of length `length` grants at most 32 + 500 * length acquires, however
   the mode changes in between; without a mode change the bound is that mode's capacity and rate.
   */
  lemma WindowBound(mode: ThrottleMode, created: real, history: seq<Call>, window: seq<Call>, start: real, length: real)
    requires InOrder(history, created, start) && InOrder(window, start, start + length)
    ensures
      var b := AfterAll(Fresh(mode, created), history);
      && Grants(b, window) as real <= MAX_BURST + Yield(length, MAX_RATE)
      && ((forall c :: c in window ==> c.Try?) ==> Grants(b, window) as real <= b.capacity + Yield(length, b.rate))
  {
    hide Yield, Attempted, Grants, InOrder, AfterAll;
    var b := AfterAll(Fresh(mode, created), history);
    HistoryKeepsSound(Fresh(mode, created), history, start);
    WindowGrants(b, window, start, length, MAX_RATE, MAX_BURST);
    if forall c :: c in window ==> c.Try? {
      WindowGrants(b, window, start, length, b.rate, b.capacity);
    }
  }

  /** The window bound of a bucket that was last set to a mode, in that mode's own numbers. */
  lemma ModeWindowBound(b: Bucket, mode: ThrottleMode, window: seq<Call>, start: real, length: real)
    requires Sound(b) && b.tokens >= 0.0 && b.lastRefill <= start && InOrder(window, start, start + length)
    requires forall c :: c in window ==> c.Try?
    ensures
      var n := Grants(WithMode(b, mode), window) as real;
      match mode
      case Normal => n <= 32.0 + Yield(length, 500.0)
      case Warm => n <= 32.0 + Yield(length, 300.0)
      case CpuPressure => n <= 32.0 + Yield(length, 150.0)
      case IoPressure => n <= 32.0 + Yield(length, 50.0)
      case Paused => n == 0.0
  {
    hide Yield, Attempted, Grants, InOrder;
    var set_ := WithMode(b, mode);
    if mode == Paused {
      PausedGrantsNothing(set_, window);
    } else {
      WindowGrants(set_, window, start, length, set_.rate, set_.capacity);
    }
  }
}
