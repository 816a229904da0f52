/** What the token bucket grants over whole runs: any number of callers, any spacing. */
module RateLimiterTraces {
  import opened Arithmetic
  import opened RateLimiter

  // Clock readings are taken under the lock, so later attempts read later times.
  predicate Clocked(start: nat, times: seq<nat>) {
    && (forall i | 0 <= i < |times| :: start <= times[i])
    && (forall i, j | 0 <= i <= j < |times| :: times[i] <= times[j])
  }

  function Last(start: nat, times: seq<nat>): nat {
    if times == [] then start else times[|times| - 1]
  }

  lemma ClockedPrefix(start: nat, times: seq<nat>, n: nat)
    requires Clocked(start, times) && n <= |times|
    ensures Clocked(start, times[..n])
  {
  }

  // The bucket after the attempts of a run, and the answers it gave.
  function BucketAfter(rps: nat, start: nat, times: seq<nat>): (b: Bucket)
    requires 0 < rps && Clocked(start, times)
    ensures b.rps == rps && b.level <= b.Full() && b.last == Last(start, times)
  {
    if times == [] then Fresh(rps, start)
    else
      var n := |times| - 1;
      ClockedPrefix(start, times, n);
      Attempt(BucketAfter(rps, start, times[..n]), times[n]).0
  }

  function Answers(rps: nat, start: nat, times: seq<nat>): (d: seq<bool>)
    requires 0 < rps && Clocked(start, times)
    ensures |d| == |times|
  {
    if times == [] then []
    else
      var n := |times| - 1;
      ClockedPrefix(start, times, n);
      Answers(rps, start, times[..n]) + [Attempt(BucketAfter(rps, start, times[..n]), times[n]).1]
  }

  // A run and its last attempt.
  lemma RunStep(rps: nat, start: nat, before: seq<nat>, t: nat)
    requires 0 < rps && Clocked(start, before + [t])
    ensures Clocked(start, before) && Last(start, before) <= t
    ensures BucketAfter(rps, start, before + [t]) == Attempt(BucketAfter(rps, start, before), t).0
    ensures Answers(rps, start, before + [t])
         == Answers(rps, start, before) + [Attempt(BucketAfter(rps, start, before), t).1]
  {
    var times := before + [t];
    assert times[..|times| - 1] == before;
    assert forall i | 0 <= i < |before| :: before[i] == times[i] && times[i] <= times[|before|];
  }

  // The number of grants among d[i..].
  function Ones(d: seq<bool>, i: nat): nat {
    if |d| <= i then 0
    else Ones(d[..|d| - 1], i) + (if d[|d| - 1] then 1 else 0)
  }

  lemma EarlierAnswers(rps: nat, start: nat, before: seq<nat>, t: nat, n: nat)
    requires 0 < rps && Clocked(start, before + [t]) && n <= |before|
    ensures Clocked(start, before) && Answers(rps, start, before + [t])[..n] == Answers(rps, start, before)[..n]
  {
    RunStep(rps, start, before, t);
  }

  lemma {:induction false} AnswersPrefix(rps: nat, start: nat, times: seq<nat>, n: nat)
    requires 0 < rps && Clocked(start, times) && n <= |times|
    ensures Clocked(start, times[..n])
    ensures Answers(rps, start, times)[..n] == Answers(rps, start, times[..n])
  {
    if n == |times| {
      assert times[..n] == times;
    } else {
      var before, t := times[..|times| - 1], times[|times| - 1];
      assert times == before + [t] && before[..n] == times[..n];
      EarlierAnswers(rps, start, before, t, n);
      AnswersPrefix(rps, start, before, n);
    }
  }

  lemma LastAnswer(rps: nat, start: nat, before: seq<nat>, t: nat)
    requires 0 < rps && Clocked(start, before + [t])
    ensures Clocked(start, before) && Last(start, before) <= t
    ensures Answers(rps, start, before + [t])[|before|] == Attempt(BucketAfter(rps, start, before), t).1
  {
    RunStep(rps, start, before, t);
  }

  lemma EarlierAnswer(rps: nat, start: nat, before: seq<nat>, t: nat, j: nat)
    requires 0 < rps && Clocked(start, before + [t]) && j < |before|
    ensures Clocked(start, before) && Answers(rps, start, before + [t])[j] == Answers(rps, start, before)[j]
  {
    RunStep(rps, start, before, t);
  }

  lemma {:induction false} AnswerAt(rps: nat, start: nat, times: seq<nat>, j: nat)
    requires 0 < rps && Clocked(start, times) && j < |times|
    ensures Clocked(start, times[..j])
    ensures Answers(rps, start, times)[j] == Attempt(BucketAfter(rps, start, times[..j]), times[j]).1
  {
    var before, t := times[..|times| - 1], times[|times| - 1];
    assert times == before + [t];
    if j == |before| {
      LastAnswer(rps, start, before, t);
    } else {
      EarlierAnswer(rps, start, before, t, j);
      AnswerAt(rps, start, before, j);
      assert before[..j] == times[..j];
    }
  }

  /// The level as a minimum over windows

  // What the window from attempt i until now has left of twice the rate plus its refill.
  function Slack(rps: nat, times: seq<nat>, d: seq<bool>, i: nat, now: nat): int
    requires i < |times| == |d| && times[i] <= now
  {
    Units(2 * rps) + Income(rps, now - times[i]) - Units(Ones(d, i))
  }

  ghost predicate LevelIsMin(rps: nat, times: seq<nat>, d: seq<bool>, now: nat, level: nat)
    requires |times| == |d| && forall i | 0 <= i < |times| :: times[i] <= now
  {
    && level <= Units(2 * rps)
    && (forall i | 0 <= i < |times| :: level <= Slack(rps, times, d, i, now))
    && (level == Units(2 * rps) || exists i :: 0 <= i < |times| && level == Slack(rps, times, d, i, now))
  }

  // One attempt changes the slack of an earlier window by the refill and by its own grant.
  lemma SlackStep(rps: nat, times: seq<nat>, d: seq<bool>, i: nat, t: nat, g: bool, now: nat)
    requires i < |times| == |d| && times[i] <= t <= now
    ensures Slack(rps, times + [t], d + [g], i, now)
         == Slack(rps, times, d, i, t) + Income(rps, now - t) - (if g then ONE else 0)
  {
    assert (d + [g])[..|d|] == d;
    IncomeAdds(rps, t - times[i], now - t);
    assert (t - times[i]) + (now - t) == now - times[i];
  }

  lemma LevelStep(rps: nat, times: seq<nat>, d: seq<bool>, t: nat, g: bool, now: nat, level: nat, next: nat)
    requires |times| == |d| && t <= now && forall i | 0 <= i < |times| :: times[i] <= t
    requires LevelIsMin(rps, times, d, t, level)
    requires g ==> ONE <= level
    requires next == Min(level - (if g then ONE else 0) + Income(rps, now - t), Units(2 * rps))
    ensures LevelIsMin(rps, times + [t], d + [g], now, next)
  {
    var times', d' := times + [t], d + [g];
    var n := |times|;
    assert d'[..n] == d;
    assert Ones(d', n) == if g then 1 else 0;
    assert Slack(rps, times', d', n, now) == Units(2 * rps) + Income(rps, now - t) - (if g then ONE else 0);
    forall i | 0 <= i < |times'|
      ensures next <= Slack(rps, times', d', i, now)
    {
      if i < n {
        SlackStep(rps, times, d, i, t, g, now);
      }
    }
    if next != Units(2 * rps) {
      if level == Units(2 * rps) {
        assert next == Slack(rps, times', d', n, now);
      } else {
        var i :| 0 <= i < n && level == Slack(rps, times, d, i, t);
        SlackStep(rps, times, d, i, t, g, now);
        assert next == Slack(rps, times', d', i, now);
      }
    }
  }

  lemma AttemptThenRefill(b: Bucket, t: nat, now: nat)
    requires 0 < b.rps && b.last <= t <= now
    ensures var (b', g) := Attempt(b, t);
            && (g ==> ONE <= Refill(b, t).level)
            && Refill(b', now).level
               == Min(Refill(b, t).level - (if g then ONE else 0) + Income(b.rps, now - t), Units(2 * b.rps))
  {
  }

  // The level is the smallest slack of all windows that end now, or full if no window has less.
  ghost predicate Tightest(rps: nat, start: nat, times: seq<nat>, now: nat)
    requires 0 < rps && Clocked(start, times) && Last(start, times) <= now
  {
    && (forall i | 0 <= i < |times| :: times[i] <= now)
    && LevelIsMin(rps, times, Answers(rps, start, times), now, Refill(BucketAfter(rps, start, times), now).level)
  }

  lemma TightestStep(rps: nat, start: nat, before: seq<nat>, t: nat, now: nat)
    requires 0 < rps && Clocked(start, before + [t]) && Clocked(start, before) && Last(start, before) <= t <= now
    requires Tightest(rps, start, before, t)
    ensures Tightest(rps, start, before + [t], now)
  {
    var b := BucketAfter(rps, start, before);
    RunStep(rps, start, before, t);
    AttemptThenRefill(b, t, now);
    LevelStep(rps, before, Answers(rps, start, before), t, Attempt(b, t).1, now, Refill(b, t).level,
              Refill(Attempt(b, t).0, now).level);
  }

  // The bucket is exactly as permissive as its bound: so it is refilled at any time after any run.
  lemma {:induction false} LevelIsTheTightestWindow(rps: nat, start: nat, times: seq<nat>, now: nat)
    requires 0 < rps && Clocked(start, times) && Last(start, times) <= now
    ensures Tightest(rps, start, times, now)
  {
    if times != [] {
      var before, t := times[..|times| - 1], times[|times| - 1];
      assert times == before + [t];
      RunStep(rps, start, before, t);
      LevelIsTheTightestWindow(rps, start, before, t);
      TightestStep(rps, start, before, t, now);
    }
  }

  // The grants of the attempts i, ..., j.
  function GrantsBetween(d: seq<bool>, i: nat, j: nat): nat
    requires i <= j < |d|
  {
    Ones(d[..j + 1], i)
  }

  // A sequence of answers that in no window grants more than twice the rate plus the rate times
  // the window's length.
  ghost predicate WithinBound(rps: nat, times: seq<nat>, d: seq<bool>)
    requires |times| == |d| && forall i, j | 0 <= i <= j < |times| :: times[i] <= times[j]
  {
    forall i, j | 0 <= i <= j < |times| ::
      Units(GrantsBetween(d, i, j)) <= Units(2 * rps) + Income(rps, times[j] - times[i])
  }

  // One more grant, at attempt j, would push the window that starts at attempt i over its bound.
  predicate WouldExceed(rps: nat, times: seq<nat>, d: seq<bool>, i: nat, j: nat)
    requires i <= j < |times| == |d| && times[i] <= times[j]
  {
    Units(2 * rps) + Income(rps, times[j] - times[i]) < Units(Ones(d[..j], i) + 1)
  }

  lemma SlackDecides(rps: nat, times: seq<nat>, d: seq<bool>, i: nat, j: nat)
    requires i < j < |times| == |d| && times[i] <= times[j]
    ensures WouldExceed(rps, times, d, i, j) <==> Slack(rps, times[..j], d[..j], i, times[j]) < ONE
  {
  }

  lemma TightestDecides(rps: nat, times: seq<nat>, d: seq<bool>, now: nat, level: nat)
    requires 0 < rps && |times| == |d| && forall i | 0 <= i < |times| :: times[i] <= now
    requires LevelIsMin(rps, times, d, now, level)
    ensures level < ONE <==> exists i :: 0 <= i < |times| && Slack(rps, times, d, i, now) < ONE
  {
  }

  // An attempt is refused exactly if granting it would push some window over the bound.
  lemma RefusedIffOverBound(rps: nat, start: nat, times: seq<nat>, j: nat)
    requires 0 < rps && Clocked(start, times) && j < |times|
    ensures var d := Answers(rps, start, times);
            !d[j] <==> exists i :: 0 <= i < j && WouldExceed(rps, times, d, i, j)
  {
    var before, t := times[..j], times[j];
    var d := Answers(rps, start, times);
    AnswersPrefix(rps, start, times, j);
    AnswerAt(rps, start, times, j);
    LevelIsTheTightestWindow(rps, start, before, t);
    var level := Refill(BucketAfter(rps, start, before), t).level;
    TightestDecides(rps, before, d[..j], t, level);
    forall i | 0 <= i < j
      ensures WouldExceed(rps, times, d, i, j) <==> Slack(rps, before, d[..j], i, t) < ONE
    {
      SlackDecides(rps, times, d, i, j);
    }
  }

  lemma SlackIsPositive(rps: nat, times: seq<nat>, d: seq<bool>, now: nat, level: nat, i: nat)
    requires |times| == |d| && forall k | 0 <= k < |times| :: times[k] <= now
    requires LevelIsMin(rps, times, d, now, level) && i < |times|
    ensures Units(Ones(d, i)) <= Units(2 * rps) + Income(rps, now - times[i])
  {
    assert level <= Slack(rps, times, d, i, now);
  }

  lemma GrantsOfPrefix(rps: nat, start: nat, times: seq<nat>, i: nat, j: nat)
    requires 0 < rps && Clocked(start, times) && i <= j < |times|
    ensures Clocked(start, times[..j + 1])
    ensures GrantsBetween(Answers(rps, start, times), i, j) == Ones(Answers(rps, start, times[..j + 1]), i)
  {
    AnswersPrefix(rps, start, times, j + 1);
  }

  lemma WindowWithinBound(rps: nat, start: nat, times: seq<nat>, i: nat, j: nat)
    requires 0 < rps && Clocked(start, times) && i <= j < |times|
    ensures Units(GrantsBetween(Answers(rps, start, times), i, j)) <= Units(2 * rps) + Income(rps, times[j] - times[i])
  {
    GrantsOfPrefix(rps, start, times, i, j);
    var now := times[..j + 1];
    LevelIsTheTightestWindow(rps, start, now, times[j]);
    SlackIsPositive(rps, now, Answers(rps, start, now), times[j], Refill(BucketAfter(rps, start, now), times[j]).level, i);
  }

  // No window of any run is granted more than its bound.
  lemma AnswersWithinBound(rps: nat, start: nat, times: seq<nat>)
    requires 0 < rps && Clocked(start, times)
    ensures WithinBound(rps, times, Answers(rps, start, times))
  {
    var d := Answers(rps, start, times);
    forall i, j | 0 <= i <= j < |times|
      ensures Units(GrantsBetween(d, i, j)) <= Units(2 * rps) + Income(rps, times[j] - times[i])
    {
      WindowWithinBound(rps, start, times, i, j);
    }
  }

  lemma {:induction false} OnesSplit(d: seq<bool>, i: nat)
    requires i <= |d|
    ensures Ones(d, 0) == Ones(d[..i], 0) + Ones(d, i)
  {
    if i == |d| {
      assert d[..i] == d;
    } else {
      var n := |d| - 1;
      OnesSplit(d[..n], i);
      assert d[..n][..i] == d[..i];
    }
  }

  // The answers d refuse exactly where a grant would exceed the bound.
  ghost predicate RefusesOnlyOverBound(rps: nat, times: seq<nat>, d: seq<bool>)
    requires |times| == |d| && forall i, j | 0 <= i <= j < |times| :: times[i] <= times[j]
  {
    forall j | 0 <= j < |times| ::
      !d[j] ==> exists i :: 0 <= i < j && WouldExceed(rps, times, d, i, j)
  }

  // Where d refuses and the other answers grant, d must have been ahead.
  lemma AheadWhenRefusing(rps: nat, times: seq<nat>, d: seq<bool>, other: seq<bool>, i: nat, n: nat)
    requires i < n < |times| == |d| == |other| && forall k, j | 0 <= k <= j < |times| :: times[k] <= times[j]
    requires WithinBound(rps, times, other) && other[n]
    requires WouldExceed(rps, times, d, i, n)
    requires Ones(other[..i], 0) <= Ones(d[..i], 0)
    ensures Ones(other[..n], 0) < Ones(d[..n], 0)
  {
    assert Units(GrantsBetween(other, i, n)) <= Units(2 * rps) + Income(rps, times[n] - times[i]);
    assert other[..n + 1][..n] == other[..n];
    OnesSplit(other[..n], i);
    OnesSplit(d[..n], i);
    assert other[..n][..i] == other[..i] && d[..n][..i] == d[..i];
  }

  lemma {:induction false} GreedyOnAnswers(rps: nat, times: seq<nat>, d: seq<bool>, other: seq<bool>, n: nat)
    requires n <= |times| == |d| == |other| && forall i, j | 0 <= i <= j < |times| :: times[i] <= times[j]
    requires RefusesOnlyOverBound(rps, times, d) && WithinBound(rps, times, other)
    ensures Ones(other[..n], 0) <= Ones(d[..n], 0)
    decreases n
  {
    if n != 0 {
      var m := n - 1;
      GreedyOnAnswers(rps, times, d, other, m);
      assert other[..n][..m] == other[..m] && d[..n][..m] == d[..m];
      if !d[m] && other[m] {
        var i :| 0 <= i < m && WouldExceed(rps, times, d, i, m);
        GreedyOnAnswers(rps, times, d, other, i);
        AheadWhenRefusing(rps, times, d, other, i, m);
      }
    }
  }

  // Nothing that respects the bound can have granted more, at any point of any run: taking a
  // token whenever there is one is optimal.
  lemma GreedyIsOptimal(rps: nat, start: nat, times: seq<nat>, other: seq<bool>, n: nat)
    requires 0 < rps && Clocked(start, times) && n <= |other| == |times|
    requires WithinBound(rps, times, other)
    ensures Ones(other[..n], 0) <= Ones(Answers(rps, start, times)[..n], 0)
  {
    var d := Answers(rps, start, times);
    forall j | 0 <= j < |times| && !d[j]
      ensures exists i :: 0 <= i < j && WouldExceed(rps, times, d, i, j)
    {
      RefusedIffOverBound(rps, start, times, j);
    }
    GreedyOnAnswers(rps, times, d, other, n);
  }

  /// Conservation, progress, and the harmlessness of refusals

  // What the cap throws away at a refill, and has thrown away over a run.
  function Spill(b: Bucket, t: nat): nat
    requires b.last <= t
  {
    b.level + Income(b.rps, t - b.last) - Refill(b, t).level
  }

  function Spilled(rps: nat, start: nat, times: seq<nat>): nat
    requires 0 < rps && Clocked(start, times)
  {
    if times == [] then 0
    else
      var n := |times| - 1;
      ClockedPrefix(start, times, n);
      Spilled(rps, start, times[..n]) + Spill(BucketAfter(rps, start, times[..n]), times[n])
  }

  lemma SpilledStep(rps: nat, start: nat, before: seq<nat>, t: nat)
    requires 0 < rps && Clocked(start, before + [t]) && Clocked(start, before) && Last(start, before) <= t
    ensures Spilled(rps, start, before + [t])
         == Spilled(rps, start, before) + Spill(BucketAfter(rps, start, before), t)
  {
    assert (before + [t])[..|before|] == before;
  }

  lemma OnesStep(d: seq<bool>, g: bool)
    ensures Units(Ones(d + [g], 0)) == Units(Ones(d, 0)) + if g then ONE else 0
  {
    assert (d + [g])[..|d|] == d;
  }

  // What one attempt finds in the bucket and what comes in, it grants, spills or leaves.
  lemma AttemptConserves(b: Bucket, t: nat)
    requires 0 < b.rps && b.last <= t
    ensures b.level + Income(b.rps, t - b.last)
         == (if Attempt(b, t).1 then ONE else 0) + Spill(b, t) + Attempt(b, t).0.level
  {
  }

  lemma IncomeOver(rps: nat, start: nat, last: nat, t: nat)
    requires start <= last <= t
    ensures Income(rps, t - start) == Income(rps, last - start) + Income(rps, t - last)
  {
    IncomeAdds(rps, last - start, t - last);
    assert (last - start) + (t - last) == t - start;
  }

  // What has been granted, is there, or has been spilled.
  function Accounted(rps: nat, start: nat, times: seq<nat>): nat
    requires 0 < rps && Clocked(start, times)
  {
    Units(Ones(Answers(rps, start, times), 0)) + BucketAfter(rps, start, times).level + Spilled(rps, start, times)
  }

  // It adds up to the initial burst and the refill of the elapsed time.
  predicate Conserved(rps: nat, start: nat, times: seq<nat>)
    requires 0 < rps && Clocked(start, times)
  {
    start <= Last(start, times) && Accounted(rps, start, times) == Units(2 * rps) + Income(rps, Last(start, times) - start)
  }

  lemma AccountedStep(rps: nat, start: nat, before: seq<nat>, t: nat)
    requires 0 < rps && Clocked(start, before + [t]) && Clocked(start, before) && Last(start, before) <= t
    ensures Accounted(rps, start, before + [t]) == Accounted(rps, start, before) + Income(rps, t - Last(start, before))
  {
    var b := BucketAfter(rps, start, before);
    RunStep(rps, start, before, t);
    SpilledStep(rps, start, before, t);
    AttemptConserves(b, t);
    OnesStep(Answers(rps, start, before), Attempt(b, t).1);
  }

  lemma StartIsFirst(start: nat, times: seq<nat>)
    requires Clocked(start, times)
    ensures start <= Last(start, times)
  {
  }

  lemma ConservedStep(rps: nat, start: nat, before: seq<nat>, t: nat)
    requires 0 < rps && Clocked(start, before + [t]) && Clocked(start, before) && Last(start, before) <= t
    requires Conserved(rps, start, before)
    ensures Conserved(rps, start, before + [t])
  {
    AccountedStep(rps, start, before, t);
    StartIsFirst(start, before);
    IncomeOver(rps, start, Last(start, before), t);
  }

  // Tokens are neither made nor lost on any run.
  lemma {:induction false} TokensAreConserved(rps: nat, start: nat, times: seq<nat>)
    requires 0 < rps && Clocked(start, times)
    ensures Conserved(rps, start, times)
  {
    if times != [] {
      var before, t := times[..|times| - 1], times[|times| - 1];
      assert times == before + [t];
      RunStep(rps, start, before, t);
      TokensAreConserved(rps, start, before);
      ConservedStep(rps, start, before, t);
    }
  }

  lemma RefusedGrows(b: Bucket, from: nat, t: nat, now: nat)
    requires 0 < b.rps && b.last <= t <= now && from <= t && !Attempt(b, t).1
    requires Min(Income(b.rps, t - from), Units(2 * b.rps)) <= Refill(b, t).level
    ensures Min(Income(b.rps, now - from), Units(2 * b.rps)) <= Refill(Attempt(b, t).0, now).level
  {
    IncomeOver(b.rps, from, t, now);
  }

  // At attempt j the bucket holds at least what has come in since `from`, up to the cap.
  predicate Grown(rps: nat, start: nat, times: seq<nat>, from: nat, j: nat)
    requires 0 < rps && Clocked(start, times) && j < |times| && from <= times[j]
  {
    && Clocked(start, times[..j])
    && Last(start, times[..j]) <= times[j]
    && Min(Income(rps, times[j] - from), Units(2 * rps)) <= Refill(BucketAfter(rps, start, times[..j]), times[j]).level
  }

  lemma GrownStep(rps: nat, start: nat, times: seq<nat>, from: nat, m: nat)
    requires 0 < rps && Clocked(start, times) && m + 1 < |times| && from <= times[m]
    requires Grown(rps, start, times, from, m) && !Attempt(BucketAfter(rps, start, times[..m]), times[m]).1
    ensures Grown(rps, start, times, from, m + 1)
  {
    ClockedPrefix(start, times, m + 1);
    assert times[..m + 1] == times[..m] + [times[m]];
    RunStep(rps, start, times[..m], times[m]);
    RefusedGrows(BucketAfter(rps, start, times[..m]), from, times[m], times[m + 1]);
  }

  lemma GrownFirst(rps: nat, start: nat, times: seq<nat>, i: nat)
    requires 0 < rps && Clocked(start, times) && i < |times|
    ensures Grown(rps, start, times, times[i], i)
  {
    ClockedPrefix(start, times, i);
  }

  // Without grants since attempt i, the bucket holds what has come in since, up to the cap.
  lemma {:induction false} LevelGrows(rps: nat, start: nat, times: seq<nat>, i: nat, j: nat)
    requires 0 < rps && Clocked(start, times) && i <= j < |times|
    requires forall k | i <= k < j :: !Answers(rps, start, times)[k]
    ensures Grown(rps, start, times, times[i], j)
    decreases j
  {
    if i == j {
      GrownFirst(rps, start, times, i);
    } else {
      LevelGrows(rps, start, times, i, j - 1);
      AnswerAt(rps, start, times, j - 1);
      GrownStep(rps, start, times, times[i], j - 1);
    }
  }

  // Whoever competes, a span in which a whole token has come in and at whose end somebody asks
  // sees at least one grant.
  lemma SomebodyIsServed(rps: nat, start: nat, times: seq<nat>, i: nat, j: nat)
    requires 0 < rps && Clocked(start, times) && i < j < |times|
    requires ONE <= Income(rps, times[j] - times[i])
    ensures exists k :: i <= k <= j && Answers(rps, start, times)[k]
  {
    var d := Answers(rps, start, times);
    if forall k | i <= k < j :: !d[k] {
      LevelGrows(rps, start, times, i, j);
      AnswerAt(rps, start, times, j);
      assert d[j];
    }
  }

  // The elements of xs that `keep` marks.
  function Kept<T>(xs: seq<T>, keep: seq<bool>): seq<T>
    requires |xs| == |keep|
  {
    if xs == [] then []
    else
      var n := |xs| - 1;
      if keep[n] then Kept(xs[..n], keep[..n]) + [xs[n]] else Kept(xs[..n], keep[..n])
  }

  lemma {:induction false} KeptIsClocked(start: nat, times: seq<nat>, keep: seq<bool>)
    requires Clocked(start, times) && |keep| == |times|
    ensures Clocked(start, Kept(times, keep))
    ensures Last(start, Kept(times, keep)) <= Last(start, times)
  {
    if times != [] {
      var n := |times| - 1;
      ClockedPrefix(start, times, n);
      KeptIsClocked(start, times[..n], keep[..n]);
      var k := Kept(times[..n], keep[..n]);
      assert forall i | 0 <= i < |k| :: k[i] <= Last(start, k) <= times[n];
    }
  }

  lemma KeptStep<T>(xs: seq<T>, x: T, keep: seq<bool>, k: bool)
    requires |xs| == |keep|
    ensures Kept(xs + [x], keep + [k]) == if k then Kept(xs, keep) + [x] else Kept(xs, keep)
  {
    assert (xs + [x])[..|xs|] == xs && (keep + [k])[..|xs|] == keep;
  }

  // Two buckets that a refill makes equal answer alike, and a refill makes them equal again.
  lemma RefilledAlike(b: Bucket, c: Bucket, t: nat, now: nat, k: bool)
    requires 0 < b.rps && b.last <= t <= now && c.last <= t && b.level <= b.Full() && c.level <= c.Full()
    requires Refill(b, t) == Refill(c, t)
    requires Attempt(b, t).1 ==> k
    ensures Attempt(b, t).1 == Attempt(c, t).1
    ensures Refill(Attempt(b, t).0, now) == Refill(if k then Attempt(c, t).0 else c, now)
  {
    RefillComposes(b, t, now);
    RefillComposes(c, t, now);
  }

  // What taking the attempts that `keep` does not mark out of a run leaves unchanged.
  ghost predicate Invisible(rps: nat, start: nat, times: seq<nat>, keep: seq<bool>, now: nat)
    requires 0 < rps && Clocked(start, times) && |keep| == |times| && Last(start, times) <= now
  {
    var kept := Kept(times, keep);
    && Clocked(start, kept) && Last(start, kept) <= now
    && Answers(rps, start, kept) == Kept(Answers(rps, start, times), keep)
    && Refill(BucketAfter(rps, start, kept), now) == Refill(BucketAfter(rps, start, times), now)
  }

  lemma InvisibleStep(rps: nat, start: nat, before: seq<nat>, t: nat, kb: seq<bool>, k: bool, now: nat)
    requires 0 < rps && Clocked(start, before + [t]) && Clocked(start, before)
    requires Last(start, before) <= t <= now && |kb| == |before|
    requires Invisible(rps, start, before, kb, t)
    requires Attempt(BucketAfter(rps, start, before), t).1 ==> k
    ensures Invisible(rps, start, before + [t], kb + [k], now)
  {
    var kept := Kept(before, kb);
    var b, c := BucketAfter(rps, start, before), BucketAfter(rps, start, kept);
    RunStep(rps, start, before, t);
    KeptStep(before, t, kb, k);
    KeptStep(Answers(rps, start, before), Attempt(b, t).1, kb, k);
    RefilledAlike(b, c, t, now, k);
    KeptIsClocked(start, before + [t], kb + [k]);
    if k {
      RunStep(rps, start, kept, t);
    }
  }

  // Refused attempts leave no trace: take any of them out of a run and all other answers, and
  // the refilled bucket, stay as they were.
  lemma {:induction false} RefusalsAreInvisible(rps: nat, start: nat, times: seq<nat>, keep: seq<bool>, now: nat)
    requires 0 < rps && Clocked(start, times) && |keep| == |times| && Last(start, times) <= now
    requires forall i | 0 <= i < |times| :: Answers(rps, start, times)[i] ==> keep[i]
    ensures Invisible(rps, start, times, keep, now)
    decreases |times|
  {
    if times != [] {
      var n := |times| - 1;
      assert times == times[..n] + [times[n]] && keep == keep[..n] + [keep[n]];
      RunStep(rps, start, times[..n], times[n]);
      var d := Answers(rps, start, times[..n]);
      assert forall i | 0 <= i < n :: d[i] == Answers(rps, start, times)[i];
      RefusalsAreInvisible(rps, start, times[..n], keep[..n], times[n]);
      InvisibleStep(rps, start, times[..n], times[n], keep[..n], keep[n], now);
    }
  }
}
