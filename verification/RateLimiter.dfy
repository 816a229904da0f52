/** The token bucket of src/rate_limiter.c in exact integers: levels count billionths of a token
    and times nanoseconds, so that one nanosecond refills `rps` units. */
module RateLimiter {
  import opened Arithmetic

  const ONE: nat := 1_000_000_000

  function Units(tokens: nat): nat { 1_000_000_000 * tokens }

  datatype Bucket = Bucket(rps: nat, level: nat, last: nat) {
    function Full(): nat { Units(2 * rps) }
  }

  function Fresh(rps: nat, now: nat): Bucket {
    Bucket(rps, Units(2 * rps), now)
  }

  // What `dt` nanoseconds bring in: rps units each. It is the product rps * dt, written as a sum
  // so that the proofs over whole runs stay linear.
  function Income(rps: nat, dt: nat): nat {
    if dt == 0 then 0 else Income(rps, dt - 1) + rps
  }

  lemma Distribute(r: nat, a: nat, b: nat)
    ensures r * (a + b) == r * a + r * b
  {
  }

  lemma {:induction false} IncomeIsProduct(rps: nat, dt: nat)
    ensures Income(rps, dt) == rps * dt
  {
    if dt != 0 {
      IncomeIsProduct(rps, dt - 1);
      Distribute(rps, dt - 1, 1);
    }
  }

  lemma {:induction false} IncomeAdds(rps: nat, a: nat, b: nat)
    ensures Income(rps, a + b) == Income(rps, a) + Income(rps, b)
  {
    if b != 0 {
      IncomeAdds(rps, a, b - 1);
      assert a + b - 1 == a + (b - 1);
    }
  }

  function Refill(b: Bucket, now: nat): Bucket
    requires b.last <= now
  {
    b.(level := Min(b.level + Income(b.rps, now - b.last), b.Full()), last := now)
  }

  // One locked refill-and-take. A rate of zero disables the limiter.
  function Attempt(b: Bucket, now: nat): (Bucket, bool)
    requires b.last <= now
  {
    if b.rps == 0 then (b, true)
    else
      var r := Refill(b, now);
      if ONE <= r.level then (r.(level := r.level - ONE), true) else (r, false)
  }

  // The time until the next token in whole microseconds, and how long a refused waiter sleeps.
  function Micros(b: Bucket): nat
    requires 0 < b.rps && b.level < ONE
  {
    Div(ONE - b.level, 1000 * b.rps)
  }

  function SleepMicros(b: Bucket): nat
    requires 0 < b.rps && b.level < ONE
  {
    if Micros(b) < 1000 then 1000 else if 100_000 < Micros(b) then 100_000 else Micros(b)
  }

  // A refill in two parts is one refill.
  lemma RefillComposes(b: Bucket, t: nat, u: nat)
    requires b.last <= t <= u && b.level <= b.Full()
    ensures Refill(Refill(b, t), u) == Refill(b, u)
  {
    IncomeAdds(b.rps, t - b.last, u - t);
    assert (t - b.last) + (u - t) == u - b.last;
  }

  /// The bounded wait

  // How many sleeps a refused waiter still needs if nobody else takes tokens: one of the minimal
  // millisecond, one before it that truncation to microseconds can leave short, and one for each
  // full 100 ms that is missing.
  function Patience(b: Bucket): nat
    requires 0 < b.rps && b.level < ONE
  {
    if Micros(b) < 1000 then 1
    else if Micros(b) <= 100_000 then 2
    else 2 + Div(ONE - b.level - 1, 100_000_000 * b.rps)
  }

  // The bucket when the sleeper reads the clock again, `late` nanoseconds after it asked to.
  function Woken(b: Bucket, late: nat): Bucket
    requires 0 < b.rps && b.level < ONE
  {
    Refill(b, b.last + 1000 * SleepMicros(b) + late)
  }

  lemma PatienceIsSmall(b: Bucket)
    requires 0 < b.rps && b.level < ONE
    ensures 1 <= Patience(b) <= 11
  {
    DivBelow(ONE - b.level - 1, 100_000_000 * b.rps, 10);
  }

  // The missing part as the clamps see it.
  lemma MicrosBounds(b: Bucket)
    requires 0 < b.rps && b.level < ONE
    ensures 1000 * b.rps * Micros(b) <= ONE - b.level < 1000 * b.rps * (Micros(b) + 1)
  {
  }

  lemma SleepCovers(rps: nat, missing: nat, micros: nat, most: nat)
    requires missing < 1000 * rps * (micros + 1) && micros <= most
    ensures missing < rps * (1000 * (most + 1))
  {
    assert 1000 * rps * (micros + 1) <= 1000 * rps * (most + 1) == rps * (1000 * (most + 1));
  }

  lemma ShortRest(b: Bucket, b': Bucket)
    requires 0 < b.rps == b'.rps && b.level < ONE && b'.level < ONE
    requires b'.level >= b.level + b.rps * (1000 * Micros(b))
    ensures Patience(b') == 1
  {
    MicrosBounds(b);
    var m := Micros(b);
    assert 1000 * b.rps * (m + 1) == b.rps * (1000 * m) + 1000 * b.rps;
    DivBelow(ONE - b'.level, 1000 * b.rps, 1);
  }

  lemma CappedRest(b: Bucket, b': Bucket)
    requires 0 < b.rps == b'.rps && b.level < ONE && b'.level < ONE && 100_000 < Micros(b)
    requires b'.level >= b.level + b.rps * 100_000_000
    ensures Patience(b') < Patience(b)
  {
    var u := 100_000_000 * b.rps;
    var x, x' := ONE - b.level - 1, ONE - b'.level - 1;
    assert x' + u <= x;
    DivAtLeast(x, u, 1);
    Distribute(u, Div(x', u), 1);
    DivAtLeast(x, u, Div(x', u) + 1);
  }

  // A sleep brings in at least what was asked for.
  lemma WokenLevel(b: Bucket, late: nat)
    requires 0 < b.rps && b.level < ONE
    ensures Woken(b, late).rps == b.rps
    ensures ONE <= Woken(b, late).level || b.level + b.rps * (1000 * SleepMicros(b)) <= Woken(b, late).level
  {
    Distribute(b.rps, 1000 * SleepMicros(b), late);
    IncomeIsProduct(b.rps, 1000 * SleepMicros(b) + late);
  }

  lemma EachSleepHelps(b: Bucket, late: nat)
    requires 0 < b.rps && b.level < ONE && b.level <= b.Full()
    ensures var b' := Woken(b, late); ONE <= b'.level || Patience(b') < Patience(b)
  {
    WokenLevel(b, late);
    MicrosBounds(b);
    var b' := Woken(b, late);
    if b'.level < ONE {
      if Micros(b) < 1000 {
        SleepCovers(b.rps, ONE - b.level, Micros(b), 999);
      } else if Micros(b) <= 100_000 {
        ShortRest(b, b');
      } else {
        CappedRest(b, b');
      }
    }
  }

  // The sleeps of a waiter whose refill has left it with bucket b: none if there is a token,
  // otherwise its i-th sleep lasts late(i) nanoseconds longer than asked for, and so on.
  function Sleeps(b: Bucket, late: nat -> nat, i: nat): (n: nat)
    requires 0 < b.rps && b.level <= b.Full()
    ensures n <= if b.level < ONE then Patience(b) else 0
    decreases if b.level < ONE then Patience(b) else 0
  {
    if ONE <= b.level then 0
    else
      EachSleepHelps(b, late(i));
      PatienceIsSmall(b);
      1 + Sleeps(Woken(b, late(i)), late, i + 1)
  }

  lemma SleepsAreFew(b: Bucket, late: nat -> nat, i: nat)
    requires 0 < b.rps && b.level <= b.Full()
    ensures Sleeps(b, late, i) <= 11
  {
    if b.level < ONE {
      PatienceIsSmall(b);
    }
  }

  lemma IncomeOfOne(dt: nat)
    ensures Income(1, dt) == dt
  {
    IncomeIsProduct(1, dt);
  }

  // A waiter at one request per second that found a single unit in the bucket at time 1, after k
  // capped sleeps.
  function CappedWaiter(k: nat): (b: Bucket)
    requires k <= 9
    ensures 0 < b.rps && b.level < ONE && b.level <= b.Full()
  {
    Bucket(1, 1 + 100_000_000 * k, 1 + 100_000_000 * k)
  }

  // The start of such a run: the burst of two is granted at time 0, and the third caller comes a
  // nanosecond later.
  lemma BurstIsGranted()
    ensures Attempt(Fresh(1, 0), 0) == (Bucket(1, 1_000_000_000, 0), true)
    ensures Attempt(Bucket(1, 1_000_000_000, 0), 0) == (Bucket(1, 0, 0), true)
    ensures Refill(Bucket(1, 0, 0), 1) == Bucket(1, 1, 1) == CappedWaiter(0)
  {
    IncomeOfOne(0);
    IncomeOfOne(1);
  }

  lemma LastTwoSleeps(late: nat -> nat)
    requires forall i :: late(i) == 0
    ensures Sleeps(CappedWaiter(9), late, 9) == 2
  {
    var b := CappedWaiter(9);
    IncomeOfOne(99_999_000);
    assert Micros(b) == 99_999;
    var c := Woken(b, late(9));
    assert c == Bucket(1, 999_999_001, 999_999_001);
    IncomeOfOne(1_000_000);
    assert Micros(c) == 0;
    assert ONE <= Woken(c, late(10)).level;
    assert Sleeps(c, late, 10) == 1;
  }

  lemma CappedSleep(k: nat)
    requires k < 9
    ensures Woken(CappedWaiter(k), 0) == CappedWaiter(k + 1)
  {
    IncomeOfOne(100_000_000);
    MicrosBounds(CappedWaiter(k));
    assert 100_000 < Micros(CappedWaiter(k));
  }

  lemma OneCappedSleep(late: nat -> nat, k: nat)
    requires k < 9 && late(k) == 0
    ensures Sleeps(CappedWaiter(k), late, k) == 1 + Sleeps(CappedWaiter(k + 1), late, k + 1)
  {
    CappedSleep(k);
  }

  lemma {:induction false} CappedSleeps(late: nat -> nat, k: nat)
    requires k <= 9 && forall i :: late(i) == 0
    ensures Sleeps(CappedWaiter(0), late, 0) == k + Sleeps(CappedWaiter(k), late, k)
  {
    if k != 0 {
      CappedSleeps(late, k - 1);
      OneCappedSleep(late, k - 1);
    }
  }

  // Eleven is reached: from there, with BurstIsGranted, a caller that is never woken late sleeps
  // nine times for 100 ms, then for the truncated rest, then for a millisecond.
  lemma ElevenIsReached(late: nat -> nat)
    requires forall i :: late(i) == 0
    ensures Sleeps(CappedWaiter(0), late, 0) == 11
  {
    CappedSleeps(late, 9);
    LastTwoSleeps(late);
  }

  /// How long a refused waiter sleeps

  // `asked` nanoseconds are whole microseconds between 1 ms and 100 ms. Above 1 ms they do not go
  // beyond the time at which the missing part has come in, and below 100 ms a microsecond more would.
  predicate Fits(rps: nat, missing: nat, asked: nat) {
    && asked % 1000 == 0
    && 1_000_000 <= asked <= 100_000_000
    && (1_000_000 < asked ==> rps * asked <= missing)
    && (asked < 100_000_000 ==> missing < rps * (asked + 1000))
  }

  lemma Grows(r: nat, a: nat, b: nat)
    requires a < b && 0 < r
    ensures r * a < r * b
  {
  }

  // There is only one such time.
  lemma FitsIsExact(rps: nat, missing: nat, a: nat, b: nat)
    requires 0 < rps && Fits(rps, missing, a) && Fits(rps, missing, b)
    ensures a == b
  {
    if a < b {
      assert a + 1000 <= b;
      if a + 1000 < b {
        Grows(rps, a + 1000, b);
      }
    } else if b < a {
      assert b + 1000 <= a;
      if b + 1000 < a {
        Grows(rps, b + 1000, a);
      }
    }
  }

  lemma Thousands(rps: nat, m: nat)
    ensures rps * (1000 * m) == 1000 * rps * m && rps * (1000 * m + 1000) == 1000 * rps * (m + 1)
    ensures 1000 * m % 1000 == 0
  {
  }

  lemma SleepFits(b: Bucket)
    requires 0 < b.rps && b.level < ONE
    ensures Fits(b.rps, ONE - b.level, 1000 * SleepMicros(b))
  {
    MicrosBounds(b);
    var m := SleepMicros(b);
    Thousands(b.rps, Micros(b));
    Thousands(b.rps, m);
    if Micros(b) < m {
      MulMonotone(Micros(b) + 1, m + 1, 1000 * b.rps);
    }
  }

  // A refusal at time t and the next attempt at time next, where the sleep was `late` longer than
  // asked for.
  predicate Nap(b: Bucket, t: nat, next: nat, late: nat) {
    && b.last <= t && t + late <= next
    && Refill(b, t).level < ONE
    && Fits(b.rps, ONE - Refill(b, t).level, next - t - late)
  }

  // A sleeper who is not woken late is there less than a millisecond after its token.
  lemma NapIsTight(b: Bucket, t: nat, next: nat, late: nat)
    requires 0 < b.rps && b.level <= b.Full() && Nap(b, t, next, late)
    ensures t + 1_000_000 + late <= next
    ensures Refill(b, next - late - 1_000_000).level < ONE
  {
    var asked := next - t - late;
    var back := asked - 1_000_000;
    RefillComposes(b, t, t + back);
    IncomeIsProduct(b.rps, back);
    if 0 < back {
      Grows(b.rps, back, asked);
    }
  }

  /// The limiter as an object

  // A waiter's bucket v, which a refill makes what it would make of the bucket b at the start.
  predicate Waiting(b: Bucket, v: Bucket, clock: nat) {
    && 0 < b.rps == v.rps && b.last <= v.last <= clock
    && b.level <= b.Full() && v.level <= v.Full()
    && Refill(v, clock) == Refill(b, clock)
  }

  lemma {:induction false} ReadingsGrow(b: Bucket, readings: seq<nat>, late: nat -> nat, k: nat)
    requires k < |readings| && forall i | 0 <= i < k :: Nap(b, readings[i], readings[i + 1], late(i))
    ensures readings[0] <= readings[k]
  {
    if k != 0 {
      ReadingsGrow(b, readings, late, k - 1);
      assert Nap(b, readings[k - 1], readings[k - 1 + 1], late(k - 1));
    }
  }

  // What one turn of the waiting loop does to it, and to the number of sleeps ahead.
  lemma OneTurn(b: Bucket, v: Bucket, clock: nat, late: nat -> nat, i: nat)
    requires Waiting(b, v, clock)
    ensures Attempt(v, clock).1 ==> Attempt(b, clock) == Attempt(v, clock) && Sleeps(Refill(b, clock), late, i) == 0
    ensures !Attempt(v, clock).1 ==>
              var v' := Attempt(v, clock).0;
              && v'.level < ONE
              && var next := clock + 1000 * SleepMicros(v') + late(i);
                 && Waiting(b, v', next)
                 && Nap(b, clock, next, late(i))
                 && Sleeps(Refill(b, clock), late, i) == 1 + Sleeps(Refill(b, next), late, i + 1)
  {
    if !Attempt(v, clock).1 {
      var v' := Attempt(v, clock).0;
      RefillComposes(b, clock, clock + 1000 * SleepMicros(v') + late(i));
      SleepFits(v');
    }
  }

  lemma LastNap(b: Bucket, readings: seq<nat>, late: nat -> nat, k: nat)
    requires 0 < b.rps && b.level <= b.Full() && 0 < k < |readings|
    requires forall i | 0 <= i < k :: Nap(b, readings[i], readings[i + 1], late(i))
    ensures var back := 1_000_000 + late(k - 1);
            readings[0] + back <= readings[k] && b.last + back <= readings[k] && Refill(b, readings[k] - back).level < ONE
  {
    ReadingsGrow(b, readings, late, k - 1);
    assert Nap(b, readings[k - 1], readings[k - 1 + 1], late(k - 1));
    NapIsTight(b, readings[k - 1], readings[k], late(k - 1));
  }

  class Limiter {
    var tokensPerSecond: nat
    var tokens: nat
    var maxTokens: nat
    var lastRefill: nat

    ghost function View(): Bucket
      reads this
    {
      Bucket(tokensPerSecond, tokens, lastRefill)
    }

    ghost predicate Valid()
      reads this
    {
      maxTokens == View().Full() && tokens <= maxTokens
    }

    constructor (rps: nat, now: nat)
      ensures Valid() && View() == Fresh(rps, now)
    {
      tokensPerSecond := rps;
      maxTokens := Units(2 * rps);
      tokens := Units(2 * rps);
      lastRefill := now;
    }

    method RefillTokens(now: nat)
      requires Valid() && lastRefill <= now
      modifies this
      ensures Valid() && View() == Refill(old(View()), now)
    {
      var elapsed := now - lastRefill;
      IncomeIsProduct(tokensPerSecond, elapsed);
      tokens := tokens + tokensPerSecond * elapsed;
      if tokens > maxTokens {
        tokens := maxTokens;
      }
      lastRefill := now;
    }

    method TryAcquire(now: nat) returns (granted: bool)
      requires Valid() && lastRefill <= now
      modifies this
      ensures Valid() && (View(), granted) == Attempt(old(View()), now)
      ensures old(tokensPerSecond) == 0 ==> granted && View() == old(View())
    {
      if tokensPerSecond == 0 {
        return true;
      }
      RefillTokens(now);
      if tokens >= ONE {
        tokens := tokens - ONE;
        return true;
      }
      return false;
    }

    // The time until the next token, truncated to microseconds and clamped.
    method SleepTime() returns (sleepUs: nat)
      requires 0 < tokensPerSecond && tokens < ONE
      ensures sleepUs == SleepMicros(View())
    {
      sleepUs := Div(ONE - tokens, 1000 * tokensPerSecond);
      if sleepUs < 1000 {
        sleepUs := 1000;
      }
      if sleepUs > 100_000 {
        sleepUs := 100_000;
      }
    }

    // One turn of the waiting loop: an attempt, and after a refusal the time of the next one.
    method WaitTurn(ghost b: Bucket, clock: nat, late: nat -> nat, i: nat) returns (granted: bool, next: nat)
      requires Valid() && Waiting(b, View(), clock)
      modifies this
      ensures Valid()
      ensures granted ==> Attempt(b, clock) == (View(), true) && Sleeps(Refill(b, clock), late, i) == 0
      ensures !granted ==>
                && Waiting(b, View(), next)
                && Nap(b, clock, next, late(i))
                && Sleeps(Refill(b, clock), late, i) == 1 + Sleeps(Refill(b, next), late, i + 1)
    {
      OneTurn(b, View(), clock, late, i);
      next := clock;
      granted := TryAcquire(clock);
      if !granted {
        var sleepUs := SleepTime();
        next := clock + 1000 * sleepUs + late(i);
      }
    }

    // The loop of the waiting call. `readings` are the times of its attempts.
    method WaitForToken(now: nat, late: nat -> nat) returns (sleeps: nat, ghost readings: seq<nat>)
      requires Valid() && lastRefill <= now && 0 < tokensPerSecond
      modifies this
      ensures Valid() && old(lastRefill) <= lastRefill
      ensures Attempt(old(View()), lastRefill) == (View(), true)
      ensures sleeps == Sleeps(Refill(old(View()), now), late, 0)
      ensures |readings| == sleeps + 1 && readings[0] == now && readings[sleeps] == lastRefill
      ensures forall i | 0 <= i < sleeps :: Nap(old(View()), readings[i], readings[i + 1], late(i))
    {
      var clock := now;
      ghost var b0 := View();
      ghost var ahead := Sleeps(Refill(b0, now), late, 0);
      sleeps, readings := 0, [now];
      while true
        invariant Valid() && Waiting(b0, View(), clock)
        invariant ahead == Sleeps(Refill(b0, clock), late, sleeps)
        invariant sleeps + ahead == Sleeps(Refill(b0, now), late, 0)
        invariant |readings| == sleeps + 1 && readings[0] == now && readings[sleeps] == clock
        invariant forall i | 0 <= i < sleeps :: Nap(b0, readings[i], readings[i + 1], late(i))
        decreases ahead
      {
        var granted, next := WaitTurn(b0, clock, late, sleeps);
        if granted {
          break;
        }
        readings := readings + [next];
        clock, sleeps, ahead := next, sleeps + 1, ahead - 1;
      }
    }

    // The waiting call when nobody else takes tokens. The clock reads `now` at first; the i-th
    // sleep lasts as long as asked for and late(i) nanoseconds more. The bucket ends as if there
    // had been one attempt, granted, at the time of the last reading; every attempt before it was
    // refused and followed by a sleep of the right length; and there are at most eleven sleeps.
    // But for the lateness of the last of them, the call returns less than a millisecond after its
    // token is there.
    method Wait(now: nat, late: nat -> nat) returns (sleeps: nat, ghost readings: seq<nat>)
      requires Valid() && lastRefill <= now
      modifies this
      ensures Valid() && old(lastRefill) <= lastRefill
      ensures Attempt(old(View()), lastRefill) == (View(), true)
      ensures old(View()).rps == 0 ==> sleeps == 0 && View() == old(View())
      ensures old(View()).rps != 0 ==>
                && sleeps == Sleeps(Refill(old(View()), now), late, 0)
                && |readings| == sleeps + 1 && readings[0] == now && readings[sleeps] == lastRefill
                && forall i | 0 <= i < sleeps :: Nap(old(View()), readings[i], readings[i + 1], late(i))
      ensures sleeps <= 11
      ensures old(View()).rps != 0 && sleeps == 0 ==> lastRefill == now
      ensures old(View()).rps != 0 && sleeps != 0 ==>
                var back := 1_000_000 + late(sleeps - 1);
                now + back <= lastRefill && Refill(old(View()), lastRefill - back).level < ONE
    {
      sleeps, readings := 0, [];
      if tokensPerSecond != 0 {
        ghost var b0 := View();
        SleepsAreFew(Refill(b0, now), late, 0);
        sleeps, readings := WaitForToken(now, late);
        if sleeps != 0 {
          LastNap(b0, readings, late, sleeps);
        }
      }
    }
  }
}
