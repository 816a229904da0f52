/** When an average that is read while requests are in flight can be trusted from above. */
module AverageReads {
  import opened Arithmetic
  import opened Metrics

  // The latency of a request is in the sum from this point on.
  function Added(c: Call): nat { if 3 <= Rank(c.pc) then 1 else 0 }

  ghost predicate AllAtMost(calls: seq<Call>, high: nat) {
    forall i | 0 <= i < |calls| :: calls[i].latency <= high
  }

  ghost predicate AboutToDivide(s: State, r: nat) {
    r < |s.readers| && s.readers[r].ReadSum?
  }

  // What reader r answers if it loads the sum now.
  function AverageNow(s: State, r: nat): nat
    requires r < |s.readers| && s.readers[r].ReadSum?
  {
    ReaderAfter(s.m, s.readers[r]).average
  }

  lemma {:induction false} SumBelow(calls: seq<Call>, high: nat)
    requires AllAtMost(calls, high)
    ensures Sum(calls, InSum) <= high * Sum(calls, Added)
  {
    if calls != [] {
      SumBelow(calls[1..], high);
      assert calls[0].latency <= high;
      assert high * Sum(calls, Added) == high * Added(calls[0]) + high * Sum(calls[1..], Added);
    }
  }

  // If the reader has counted every request whose latency is in the sum, its answer is within
  // every upper bound of the latencies.
  lemma CoveredAverage(s: State, r: nat, high: nat)
    requires Reachable(s) && NoOverflow(s) && AboutToDivide(s, r)
    requires s.readers[r].count == Sum(s.calls, Added) && AllAtMost(s.calls, high)
    ensures AverageNow(s, r) <= high
  {
    ReachableInv(s);
    WordsAreExact(s);
    SumBelow(s.calls, high);
    if s.readers[r].count != 0 {
      QuotientBelow(s.m.sum, s.readers[r].count, high);
    }
  }

  // The least bound of the latencies that a reader can exceed with a count of n, if the sum holds
  // `missed` requests more: n divided by `missed`, rounded up.
  function LeastBound(n: nat, missed: nat): (h: nat)
    requires 0 < n && 0 < missed
    ensures 0 < h && (h - 1) * missed < n <= h * missed
  {
    Div(n - 1, missed) + 1
  }

  // The sum it then has to load.
  function LeastSum(n: nat, missed: nat): nat
    requires 0 < n && 0 < missed
  {
    (LeastBound(n, missed) + 1) * n
  }

  // A reader that has missed some requests exceeds a bound only if its sum is at least that.
  lemma ExceedingNeeds(n: nat, missed: nat, high: nat, sum: nat)
    requires 0 < n && 0 < missed && (high + 1) * n <= sum <= high * (n + missed)
    ensures LeastSum(n, missed) <= sum
  {
    var h := LeastBound(n, missed);
    assert high * (n + missed) == high * n + high * missed && (high + 1) * n == high * n + n;
    assert (h - 1) * missed < high * missed;
    if high < h {
      MulMonotone(high, h - 1, missed);
    }
    MulMonotone(h + 1, high + 1, n);
  }

  // So if that does not fit the word, its answer is within every upper bound after all.
  lemma TooLargeToMislead(s: State, r: nat, high: nat)
    requires Reachable(s) && NoOverflow(s) && AboutToDivide(s, r) && AllAtMost(s.calls, high)
    requires var n := s.readers[r].count;
             0 < n < Sum(s.calls, Added) && WORD <= LeastSum(n, Sum(s.calls, Added) - n)
    ensures AverageNow(s, r) <= high
  {
    ReachableInv(s);
    WordsAreExact(s);
    SumBelow(s.calls, high);
    var n := s.readers[r].count;
    if high < AverageNow(s, r) {
      QuotientAtLeast(s.m.sum, n, high + 1);
      ExceedingNeeds(n, Sum(s.calls, Added) - n, high, s.m.sum);
    }
  }

  /// The same run with other latencies

  // The loops for the extremes are not replayed: they touch neither the sum nor the count.
  function Replayed(c: Call, latency: nat): Call {
    Call(c.ok, latency, if Rank(c.pc) < 4 then c.pc else LoadMin)
  }

  predicate SameReader(r: Reader, r': Reader) {
    if r.Answer? then r'.Answer? else r' == r
  }

  ghost predicate Twin(s: State, s': State, latency: nat -> nat) {
    && |s'.calls| == |s.calls|
    && (forall i | 0 <= i < |s.calls| :: s'.calls[i] == Replayed(s.calls[i], latency(i)))
    && |s'.readers| == |s.readers|
    && (forall r | 0 <= r < |s.readers| :: SameReader(s.readers[r], s'.readers[r]))
    && s'.m.count == s.m.count
  }

  lemma TwinStep(s: State, s': State, step: Step, latency: nat -> nat) returns (t': State)
    requires Enabled(s, step) && Twin(s, s', latency) && Reachable(s') && forall i :: latency(i) < WORD
    ensures Reachable(t') && Twin(Apply(s, step), t', latency)
  {
    var step' := if step.Begin? then Begin(step.ok, latency(|s.calls|)) else step;
    if step.Advance? && 4 <= Rank(s.calls[step.i].pc) {
      t' := s';
    } else {
      ReachableStep(s', step');
      t' := Apply(s', step');
    }
  }

  lemma {:induction false} TwinRun(s: State, s': State, run: seq<Step>, latency: nat -> nat) returns (t': State)
    requires ValidRun(s, run) && Twin(s, s', latency) && Reachable(s') && forall i :: latency(i) < WORD
    ensures Reachable(t') && Twin(After(s, run), t', latency)
    decreases |run|
  {
    if run == [] {
      t' := s';
    } else {
      t' := TwinStep(s, s', run[0], latency);
      t' := TwinRun(Apply(s, run[0]), t', run[1..], latency);
    }
  }

  // Every reachable state can be reached with any other latencies in place of its own.
  lemma TwinIsReachable(s: State, latency: nat -> nat) returns (s': State)
    requires Reachable(s) && forall i :: latency(i) < WORD
    ensures Reachable(s') && Twin(s, s', latency)
  {
    var run :| ValidRun(START, run) && s == After(START, run);
    assert ValidRun(START, []) && After(START, []) == START;
    s' := TwinRun(START, START, run, latency);
  }

  /// Latencies that mislead a reader

  function Less(a: nat, b: nat): nat { if a <= b then 0 else a - b }

  // Latencies of at most h that add up to `sum`: as much as possible for the first requests in the
  // sum, zero for all others.
  function Chosen(calls: seq<Call>, h: nat, sum: nat, i: nat): nat {
    if i < |calls| && Added(calls[i]) == 1 then Min(h, Less(sum, h * Sum(calls[..i], Added))) else 0
  }

  lemma OneMore(h: nat, x: nat)
    ensures h * (x + 1) == h * x + h
  {
  }

  lemma {:induction false} SumOfChosen(s: State, s': State, h: nat, sum: nat, j: nat)
    requires |s'.calls| == |s.calls| && j <= |s.calls|
    requires forall i | 0 <= i < |s.calls| :: s'.calls[i] == Replayed(s.calls[i], Chosen(s.calls, h, sum, i))
    ensures Sum(s'.calls[..j], InSum) == Sum(s'.calls[..j], Latency) == Min(sum, h * Sum(s.calls[..j], Added))
  {
    if j != 0 {
      var i := j - 1;
      SumOfChosen(s, s', h, sum, i);
      assert s.calls[..j] == s.calls[..i] + [s.calls[i]] && s'.calls[..j] == s'.calls[..i] + [s'.calls[i]];
      SumAppend(s.calls[..i], s.calls[i], Added);
      SumAppend(s'.calls[..i], s'.calls[i], InSum);
      SumAppend(s'.calls[..i], s'.calls[i], Latency);
      OneMore(h, Sum(s.calls[..i], Added));
    }
  }

  // How far a request has got with the sum and the count.
  function Stage(c: Call): nat { Min(Rank(c.pc), 4) }

  // The same requests have got as far, and reader r holds the same count.
  ghost predicate SameProgress(s: State, s': State, r: nat) {
    && |s'.calls| == |s.calls|
    && (forall i | 0 <= i < |s.calls| :: Stage(s'.calls[i]) == Stage(s.calls[i]))
    && r < |s.readers| && r < |s'.readers| && s'.readers[r] == s.readers[r]
  }

  lemma {:induction false} SameSum(calls: seq<Call>, calls': seq<Call>)
    requires |calls'| == |calls| && forall i | 0 <= i < |calls| :: Stage(calls'[i]) == Stage(calls[i])
    ensures Sum(calls', Added) == Sum(calls, Added)
  {
    if calls != [] {
      assert Stage(calls'[0]) == Stage(calls[0]);
      SameSum(calls[1..], calls'[1..]);
    }
  }

  lemma TwinProgress(s: State, s': State, r: nat, latency: nat -> nat)
    requires Twin(s, s', latency) && AboutToDivide(s, r)
    ensures SameProgress(s, s', r)
  {
    assert SameReader(s.readers[r], s'.readers[r]);
  }

  lemma TwinSum(s: State, s': State, h: nat, sum: nat)
    requires Twin(s, s', i => Chosen(s.calls, h, sum, i)) && Reachable(s')
    requires |s.calls| < WORD && sum < WORD && sum <= h * Sum(s.calls, Added)
    ensures NoOverflow(s') && s'.m.sum == sum && AllAtMost(s'.calls, h)
  {
    SumOfChosen(s, s', h, sum, |s.calls|);
    assert s.calls[..|s.calls|] == s.calls && s'.calls[..|s.calls|] == s'.calls;
    ReachableInv(s');
    WordsAreExact(s');
  }

  lemma EnoughForSum(n: nat, all: nat)
    requires 0 < n < all
    ensures var h := LeastBound(n, all - n); h < LeastSum(n, all - n) <= h * all
  {
    var h := LeastBound(n, all - n);
    assert (h + 1) * n == h * n + n && h * all == h * n + h * (all - n);
    MulMonotone(1, n, h + 1);
  }

  // If the reader has missed a request whose latency is in the sum, and the words are wide enough,
  // requests that have got just as far, with other latencies, make its answer exceed all of them.
  lemma UncoveredAverage(s: State, r: nat) returns (s': State)
    requires Reachable(s) && |s.calls| < WORD && AboutToDivide(s, r)
    requires var n := s.readers[r].count;
             0 < n < Sum(s.calls, Added) && LeastSum(n, Sum(s.calls, Added) - n) < WORD
    ensures Reachable(s') && NoOverflow(s') && SameProgress(s, s', r)
    ensures var h := LeastBound(s.readers[r].count, Sum(s.calls, Added) - s.readers[r].count);
            AllAtMost(s'.calls, h) && AverageNow(s', r) == h + 1
  {
    var n, all := s.readers[r].count, Sum(s.calls, Added);
    var h, sum := LeastBound(n, all - n), LeastSum(n, all - n);
    EnoughForSum(n, all);
    s' := TwinIsReachable(s, i => Chosen(s.calls, h, sum, i));
    TwinProgress(s, s', r, i => Chosen(s.calls, h, sum, i));
    TwinSum(s, s', h, sum);
    QuotientIs(n, h + 1);
  }

  lemma {:induction false} CountedWereAdded(calls: seq<Call>)
    ensures Sum(calls, InCount) <= Sum(calls, Added)
  {
    if calls != [] {
      CountedWereAdded(calls[1..]);
    }
  }

  // Whatever the latencies are, the answer is within their bounds.
  ghost predicate AlwaysBounded(s: State, r: nat) {
    forall s', high: nat | Reachable(s') && NoOverflow(s') && SameProgress(s, s', r) && AllAtMost(s'.calls, high)
                           && s'.readers[r].ReadSum? ::
      AverageNow(s', r) <= high
  }

  // The reader has counted every request whose latency is in the sum, or the sum it would take to
  // mislead it does not fit the word.
  predicate CannotMislead(n: nat, all: nat) {
    n == all || (0 < n < all && WORD <= LeastSum(n, all - n))
  }

  // Hence the answer is bounded by the latencies, whatever these are, if and only if the reader
  // has counted every request whose latency is in the sum when it loads the sum. (With counts near
  // the width of the word, it is also if no sum without overflow is large enough to mislead.)
  lemma AverageBoundedIff(s: State, r: nat)
    requires Reachable(s) && NoOverflow(s) && AboutToDivide(s, r)
    ensures AlwaysBounded(s, r) <==> CannotMislead(s.readers[r].count, Sum(s.calls, Added))
  {
    ReachableInv(s);
    assert ReaderInv(s, s.readers[r]);
    CountedWereAdded(s.calls);
    if CannotMislead(s.readers[r].count, Sum(s.calls, Added)) {
      forall s', high: nat | Reachable(s') && NoOverflow(s') && SameProgress(s, s', r) && AllAtMost(s'.calls, high)
        ensures AverageNow(s', r) <= high
      {
        SameSum(s.calls, s'.calls);
        if s.readers[r].count == Sum(s.calls, Added) {
          CoveredAverage(s', r, high);
        } else {
          TooLargeToMislead(s', r, high);
        }
      }
    } else {
      var s' := UncoveredAverage(s, r);
      assert AllAtMost(s'.calls, LeastBound(s.readers[r].count, Sum(s.calls, Added) - s.readers[r].count));
    }
  }

  // For counts below 2^32 the second case does not arise.
  lemma SmallCountsAreExact(n: nat, all: nat)
    requires 0 < n <= all && n < 0x1_0000_0000
    ensures CannotMislead(n, all) <==> n == all
  {
    if n < all {
      var h := LeastBound(n, all - n);
      if n < h {
        MulMonotone(1, all - n, h - 1);
      }
      MulMonotone(h + 1, 0x1_0000_0000, n);
      MulMonotone(n, 0xFFFF_FFFF, 0x1_0000_0000);
    }
  }
}
