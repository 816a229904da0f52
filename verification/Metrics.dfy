/** The lock-free counters of src/metrics.c. Every atomic operation is one step, any number of
    requests and of readers of the average interleave, and a weak compare-and-exchange may fail
    for no reason. Counters are 64 bits wide and wrap. */
module Metrics {
  import opened Arithmetic

  const WORD: nat := 0x1_0000_0000_0000_0000
  const UINT64_MAX: nat := 0xFFFF_FFFF_FFFF_FFFF

  datatype Counters = Counters(total: nat, success: nat, failed: nat, sum: nat, count: nat, min: nat, max: nat)

  // The next atomic operation of a yurei_metrics_request; `seen` is its local copy of the
  // minimum or maximum.
  datatype Pc =
    | AddTotal | AddOutcome | AddSum | AddCount
    | LoadMin | CasMin(seen: nat) | LoadMax | CasMax(seen: nat) | Done

  datatype Call = Call(ok: bool, latency: nat, pc: Pc)

  // A yurei_metrics_avg_latency_us: it loads the count, then the sum.
  datatype Reader = ReadCount | ReadSum(count: nat) | Answer(count: nat, average: nat)

  datatype State = State(m: Counters, calls: seq<Call>, readers: seq<Reader>)

  const START := State(Counters(0, 0, 0, 0, 0, UINT64_MAX, 0), [], [])

  datatype Step =
    | Begin(ok: bool, latency: nat)
    | Advance(i: nat, spurious: bool)
    | BeginReading
    | Read(r: nat)

  function FetchAdd(x: nat, n: nat): nat { (x + n) % WORD }

  // Where the loop around the exchange goes with the value it has just seen.
  function AtMinLoop(latency: nat, seen: nat): Pc { if latency < seen then CasMin(seen) else LoadMax }
  function AtMaxLoop(latency: nat, seen: nat): Pc { if seen < latency then CasMax(seen) else Done }

  function CountersAfter(m: Counters, c: Call, spurious: bool): Counters {
    match c.pc
    case AddTotal => m.(total := FetchAdd(m.total, 1))
    case AddOutcome =>
      if c.ok then m.(success := FetchAdd(m.success, 1)) else m.(failed := FetchAdd(m.failed, 1))
    case AddSum => m.(sum := FetchAdd(m.sum, c.latency))
    case AddCount => m.(count := FetchAdd(m.count, 1))
    case CasMin(seen) => if m.min == seen && !spurious then m.(min := c.latency) else m
    case CasMax(seen) => if m.max == seen && !spurious then m.(max := c.latency) else m
    case _ => m
  }

  function PcAfter(m: Counters, c: Call, spurious: bool): Pc {
    match c.pc
    case AddTotal => AddOutcome
    case AddOutcome => AddSum
    case AddSum => AddCount
    case AddCount => LoadMin
    case LoadMin => AtMinLoop(c.latency, m.min)
    case CasMin(seen) => if m.min == seen && !spurious then LoadMax else AtMinLoop(c.latency, m.min)
    case LoadMax => AtMaxLoop(c.latency, m.max)
    case CasMax(seen) => if m.max == seen && !spurious then Done else AtMaxLoop(c.latency, m.max)
    case Done => Done
  }

  function ReaderAfter(m: Counters, r: Reader): Reader {
    match r
    case ReadCount => if m.count == 0 then Answer(0, 0) else ReadSum(m.count)
    case ReadSum(count) => Answer(count, if count == 0 then 0 else m.sum / count)
    case Answer(_, _) => r
  }

  predicate Enabled(s: State, step: Step) {
    match step
    case Begin(_, latency) => latency < WORD
    case Advance(i, _) => i < |s.calls| && !s.calls[i].pc.Done?
    case BeginReading => true
    case Read(r) => r < |s.readers| && !s.readers[r].Answer?
  }

  function Apply(s: State, step: Step): State
    requires Enabled(s, step)
  {
    match step
    case Begin(ok, latency) => s.(calls := s.calls + [Call(ok, latency, AddTotal)])
    case Advance(i, spurious) =>
      var c := s.calls[i];
      s.(m := CountersAfter(s.m, c, spurious), calls := s.calls[i := c.(pc := PcAfter(s.m, c, spurious))])
    case BeginReading => s.(readers := s.readers + [ReadCount])
    case Read(r) => s.(readers := s.readers[r := ReaderAfter(s.m, s.readers[r])])
  }

  predicate ValidRun(s: State, run: seq<Step>)
    decreases |run|
  {
    run == [] || (Enabled(s, run[0]) && ValidRun(Apply(s, run[0]), run[1..]))
  }

  function After(s: State, run: seq<Step>): State
    requires ValidRun(s, run)
    decreases |run|
  {
    if run == [] then s else After(Apply(s, run[0]), run[1..])
  }

  /// Sums over calls

  function Rank(pc: Pc): nat {
    match pc
    case AddTotal => 0 case AddOutcome => 1 case AddSum => 2 case AddCount => 3
    case LoadMin => 4 case CasMin(_) => 5 case LoadMax => 6 case CasMax(_) => 7 case Done => 8
  }

  function InTotal(c: Call): nat { if 1 <= Rank(c.pc) then 1 else 0 }
  function InSuccess(c: Call): nat { if c.ok && 2 <= Rank(c.pc) then 1 else 0 }
  function InFailed(c: Call): nat { if !c.ok && 2 <= Rank(c.pc) then 1 else 0 }
  function InSum(c: Call): nat { if 3 <= Rank(c.pc) then c.latency else 0 }
  function InCount(c: Call): nat { if 4 <= Rank(c.pc) then 1 else 0 }
  function Latency(c: Call): nat { c.latency }
  function Succeeded(c: Call): nat { if c.ok then 1 else 0 }

  function Sum(calls: seq<Call>, f: Call -> nat): nat {
    if calls == [] then 0 else f(calls[0]) + Sum(calls[1..], f)
  }

  lemma {:induction false} SumUpdate(calls: seq<Call>, i: nat, c: Call, f: Call -> nat)
    requires i < |calls|
    ensures Sum(calls[i := c], f) == Sum(calls, f) - f(calls[i]) + f(c)
  {
    if i == 0 {
      assert calls[i := c][1..] == calls[1..];
    } else {
      SumUpdate(calls[1..], i - 1, c, f);
      assert calls[i := c][1..] == calls[1..][i - 1 := c];
    }
  }

  lemma {:induction false} SumAppend(calls: seq<Call>, c: Call, f: Call -> nat)
    ensures Sum(calls + [c], f) == Sum(calls, f) + f(c)
  {
    if calls != [] {
      SumAppend(calls[1..], c, f);
      assert (calls + [c])[1..] == calls[1..] + [c];
    } else {
      assert [c][1..] == [];
    }
  }

  lemma {:induction false} SumLeq(calls: seq<Call>, f: Call -> nat, g: Call -> nat, k: nat)
    requires forall i | 0 <= i < |calls| :: k * f(calls[i]) <= g(calls[i])
    ensures k * Sum(calls, f) <= Sum(calls, g)
  {
    if calls != [] {
      SumLeq(calls[1..], f, g, k);
      assert k * Sum(calls, f) == k * f(calls[0]) + k * Sum(calls[1..], f);
    }
  }

  /// The invariant

  predicate CountersInv(s: State) {
    && s.m.total == Sum(s.calls, InTotal) % WORD
    && s.m.success == Sum(s.calls, InSuccess) % WORD
    && s.m.failed == Sum(s.calls, InFailed) % WORD
    && s.m.sum == Sum(s.calls, InSum) % WORD
    && s.m.count == Sum(s.calls, InCount) % WORD
  }

  predicate CallInv(m: Counters, c: Call) {
    && c.latency < WORD
    && (c.pc.CasMin? ==> m.min <= c.pc.seen && c.latency < c.pc.seen)
    && (6 <= Rank(c.pc) ==> m.min <= c.latency)
    && (c.pc.CasMax? ==> c.pc.seen <= m.max && c.pc.seen < c.latency)
    && (8 <= Rank(c.pc) ==> c.latency <= m.max)
  }

  ghost predicate ExtremesInv(s: State) {
    && s.m.min <= UINT64_MAX
    && (forall i | 0 <= i < |s.calls| :: CallInv(s.m, s.calls[i]))
    && (s.m.min != UINT64_MAX ==> exists i :: 0 <= i < |s.calls| && s.calls[i].latency == s.m.min)
    && (s.m.max != 0 ==> exists i :: 0 <= i < |s.calls| && s.calls[i].latency == s.m.max)
  }

  // Neither the number of requests nor the sum of their latencies leaves 64 bits.
  predicate NoOverflow(s: State) {
    |s.calls| < WORD && Sum(s.calls, Latency) < WORD
  }

  ghost predicate AllAtLeast(calls: seq<Call>, low: nat) {
    forall i | 0 <= i < |calls| :: low <= calls[i].latency
  }

  // A reader between its two loads holds a count of requests that have all added their latency.
  ghost predicate ReaderInv(s: State, r: Reader) {
    match r
    case ReadCount => true
    case ReadSum(count) => 0 < count <= Sum(s.calls, InCount)
    case Answer(count, average) =>
      if count == 0 then average == 0 else forall low: nat | AllAtLeast(s.calls, low) :: low <= average
  }

  ghost predicate ReadersInv(s: State) {
    NoOverflow(s) ==> forall r | 0 <= r < |s.readers| :: ReaderInv(s, s.readers[r])
  }

  ghost predicate Inv(s: State) {
    CountersInv(s) && ExtremesInv(s) && ReadersInv(s)
  }

  lemma ModAdd(x: nat, n: nat)
    ensures FetchAdd(x % WORD, n) == (x + n) % WORD
  {
  }

  lemma CounterFollows(s: State, i: nat, spurious: bool, word: nat, word': nat, f: Call -> nat)
    requires Enabled(s, Advance(i, spurious)) && word == Sum(s.calls, f) % WORD
    requires f(s.calls[i]) <= f(Apply(s, Advance(i, spurious)).calls[i])
    requires var n := f(Apply(s, Advance(i, spurious)).calls[i]) - f(s.calls[i]);
             word' == if n == 0 then word else FetchAdd(word, n)
    ensures word' == Sum(Apply(s, Advance(i, spurious)).calls, f) % WORD
  {
    var c' := Apply(s, Advance(i, spurious)).calls[i];
    SumUpdate(s.calls, i, c', f);
    ModAdd(Sum(s.calls, f), f(c') - f(s.calls[i]));
  }

  // One step of a call adds to each counter what it adds to the sum that the counter stands for.
  lemma AdvanceKeepsCounters(s: State, i: nat, spurious: bool)
    requires CountersInv(s) && Enabled(s, Advance(i, spurious))
    ensures CountersInv(Apply(s, Advance(i, spurious)))
  {
    var c := s.calls[i];
    var s' := Apply(s, Advance(i, spurious));
    CounterFollows(s, i, spurious, s.m.total, s'.m.total, InTotal);
    CounterFollows(s, i, spurious, s.m.success, s'.m.success, InSuccess);
    CounterFollows(s, i, spurious, s.m.failed, s'.m.failed, InFailed);
    CounterFollows(s, i, spurious, s.m.sum, s'.m.sum, InSum);
    CounterFollows(s, i, spurious, s.m.count, s'.m.count, InCount);
  }

  lemma BeginKeepsCounters(s: State, c: Call)
    requires CountersInv(s) && c.pc.AddTotal?
    ensures CountersInv(s.(calls := s.calls + [c]))
  {
    SumAppend(s.calls, c, InTotal);
    SumAppend(s.calls, c, InSuccess);
    SumAppend(s.calls, c, InFailed);
    SumAppend(s.calls, c, InSum);
    SumAppend(s.calls, c, InCount);
  }

  // The extremes only ever move outwards.
  lemma StepIsMonotone(s: State, step: Step)
    requires Enabled(s, step) && ExtremesInv(s)
    ensures Apply(s, step).m.min <= s.m.min && s.m.max <= Apply(s, step).m.max
  {
    if step.Advance? {
      assert CallInv(s.m, s.calls[step.i]);
    }
  }

  lemma StepKeepsExtremes(s: State, step: Step)
    requires Enabled(s, step) && ExtremesInv(s)
    ensures ExtremesInv(Apply(s, step))
  {
    var s' := Apply(s, step);
    StepIsMonotone(s, step);
    if step.Advance? {
      assert CallInv(s.m, s.calls[step.i]);
      assert s'.calls[step.i].latency == s.calls[step.i].latency;
    }
    forall j | 0 <= j < |s'.calls|
      ensures CallInv(s'.m, s'.calls[j])
    {
      if j < |s.calls| {
        assert CallInv(s.m, s.calls[j]);
      }
    }
    if s'.m.min != UINT64_MAX && s'.m.min == s.m.min {
      var i :| 0 <= i < |s.calls| && s.calls[i].latency == s.m.min;
      assert s'.calls[i].latency == s'.m.min;
    }
    if s'.m.max != 0 && s'.m.max == s.m.max {
      var i :| 0 <= i < |s.calls| && s.calls[i].latency == s.m.max;
      assert s'.calls[i].latency == s'.m.max;
    }
  }

  // Calls only accumulate: what has been counted stays counted, and latencies stay.
  lemma StepAccumulates(s: State, step: Step)
    requires Enabled(s, step)
    ensures var s' := Apply(s, step);
            && Sum(s.calls, InCount) <= Sum(s'.calls, InCount)
            && (NoOverflow(s') ==> NoOverflow(s))
            && forall low: nat :: AllAtLeast(s'.calls, low) ==> AllAtLeast(s.calls, low)
  {
    var s' := Apply(s, step);
    if step.Advance? {
      var c' := s'.calls[step.i];
      SumUpdate(s.calls, step.i, c', InCount);
      SumUpdate(s.calls, step.i, c', Latency);
    } else if step.Begin? {
      var c' := Call(step.ok, step.latency, AddTotal);
      SumAppend(s.calls, c', InCount);
      SumAppend(s.calls, c', Latency);
    }
    forall low: nat | AllAtLeast(s'.calls, low)
      ensures AllAtLeast(s.calls, low)
    {
      forall i | 0 <= i < |s.calls|
        ensures low <= s.calls[i].latency
      {
        assert low <= s'.calls[i].latency;
      }
    }
  }

  lemma {:induction false} SumAtMostLength(calls: seq<Call>, f: Call -> nat)
    requires forall c :: f(c) <= 1
    ensures Sum(calls, f) <= |calls|
  {
    if calls != [] {
      SumAtMostLength(calls[1..], f);
    }
  }

  // Without overflow the loaded words are the true sums.
  lemma WordsAreExact(s: State)
    requires CountersInv(s) && NoOverflow(s)
    ensures s.m.count == Sum(s.calls, InCount) && s.m.sum == Sum(s.calls, InSum)
    ensures s.m.total == Sum(s.calls, InTotal)
    ensures s.m.success == Sum(s.calls, InSuccess) && s.m.failed == Sum(s.calls, InFailed)
  {
    SumLeq(s.calls, InSum, Latency, 1);
    SumAtMostLength(s.calls, InCount);
    SumAtMostLength(s.calls, InTotal);
    SumAtMostLength(s.calls, InSuccess);
    SumAtMostLength(s.calls, InFailed);
  }

  lemma CountedAtLeast(calls: seq<Call>, low: nat)
    requires AllAtLeast(calls, low)
    ensures low * Sum(calls, InCount) <= Sum(calls, InSum)
  {
    forall i | 0 <= i < |calls|
      ensures low * InCount(calls[i]) <= InSum(calls[i])
    {
      assert low <= calls[i].latency;
    }
    SumLeq(calls, InCount, InSum, low);
  }

  // The average that a reader computes is at least every lower bound of the started latencies.
  lemma AverageFromBelow(s: State, count: nat, low: nat)
    requires CountersInv(s) && NoOverflow(s) && AllAtLeast(s.calls, low)
    requires 0 < count <= Sum(s.calls, InCount)
    ensures low <= s.m.sum / count
  {
    WordsAreExact(s);
    CountedAtLeast(s.calls, low);
    MulMonotone(count, Sum(s.calls, InCount), low);
    Quotient(s.m.sum, count, low);
  }

  lemma StepKeepsReaders(s: State, step: Step)
    requires Inv(s) && Enabled(s, step)
    ensures ReadersInv(Apply(s, step))
  {
    var s' := Apply(s, step);
    StepAccumulates(s, step);
    if NoOverflow(s') {
      WordsAreExact(s);
      forall r | 0 <= r < |s'.readers|
        ensures ReaderInv(s', s'.readers[r])
      {
        if r < |s.readers| {
          assert ReaderInv(s, s.readers[r]);
          if step == Read(r) && s.readers[r].ReadSum? {
            forall low: nat | AllAtLeast(s'.calls, low)
              ensures low <= s.m.sum / s.readers[r].count
            {
              AverageFromBelow(s, s.readers[r].count, low);
            }
          }
        }
      }
    }
  }

  lemma StepKeepsInv(s: State, step: Step)
    requires Inv(s) && Enabled(s, step)
    ensures Inv(Apply(s, step))
  {
    StepKeepsExtremes(s, step);
    StepKeepsReaders(s, step);
    if step.Advance? {
      AdvanceKeepsCounters(s, step.i, step.spurious);
    } else if step.Begin? {
      BeginKeepsCounters(s, Call(step.ok, step.latency, AddTotal));
    }
  }

  // Every interleaving keeps the invariant, and the extremes never move back.
  lemma {:induction false} RunKeepsInv(s: State, run: seq<Step>)
    requires Inv(s) && ValidRun(s, run)
    ensures Inv(After(s, run))
    ensures After(s, run).m.min <= s.m.min && s.m.max <= After(s, run).m.max
    decreases |run|
  {
    if run != [] {
      StepKeepsInv(s, run[0]);
      StepIsMonotone(s, run[0]);
      RunKeepsInv(Apply(s, run[0]), run[1..]);
    }
  }

  ghost predicate Reachable(s: State) {
    exists run :: ValidRun(START, run) && s == After(START, run)
  }

  lemma ReachableInv(s: State)
    requires Reachable(s)
    ensures Inv(s)
  {
    var run :| ValidRun(START, run) && s == After(START, run);
    RunKeepsInv(START, run);
  }

  /// What the readers of the counters can rely on

  // At any moment of any run: a request that is past its loop is within the extremes, and an
  // extreme is a latency that some request has brought in, or still its initial value.
  lemma ExtremesAreSound(s: State, i: nat)
    requires Reachable(s) && i < |s.calls|
    ensures 6 <= Rank(s.calls[i].pc) ==> s.m.min <= s.calls[i].latency
    ensures s.calls[i].pc.Done? ==> s.calls[i].latency <= s.m.max
    ensures s.m.min == UINT64_MAX || exists k :: 0 <= k < |s.calls| && s.calls[k].latency == s.m.min
    ensures s.m.max == 0 || exists k :: 0 <= k < |s.calls| && s.calls[k].latency == s.m.max
  {
    ReachableInv(s);
    assert CallInv(s.m, s.calls[i]);
  }

  ghost predicate Quiescent(s: State) {
    forall i | 0 <= i < |s.calls| :: s.calls[i].pc.Done?
  }

  // Once all requests are done, the extremes are the true ones.
  lemma ExtremesAreExact(s: State)
    requires Reachable(s) && Quiescent(s) && s.calls != []
    ensures AllAtLeast(s.calls, s.m.min) && exists k :: 0 <= k < |s.calls| && s.calls[k].latency == s.m.min
    ensures forall i | 0 <= i < |s.calls| :: s.calls[i].latency <= s.m.max
    ensures exists k :: 0 <= k < |s.calls| && s.calls[k].latency == s.m.max
  {
    ReachableInv(s);
    forall i | 0 <= i < |s.calls|
      ensures s.m.min <= s.calls[i].latency <= s.m.max && s.calls[i].latency <= UINT64_MAX
    {
      assert CallInv(s.m, s.calls[i]);
    }
    assert s.m.min <= s.calls[0].latency <= s.m.max;
  }

  // A retry that is not spurious has seen the extreme move, so it brings the loop closer to its end.
  lemma RetryMeansProgress(s: State, i: nat)
    requires Reachable(s) && i < |s.calls| && (s.calls[i].pc.CasMin? || s.calls[i].pc.CasMax?)
    ensures var c, c' := s.calls[i].pc, Apply(s, Advance(i, false)).calls[i].pc;
            && (c.CasMin? && c'.CasMin? ==> c'.seen < c.seen)
            && (c.CasMax? && c'.CasMax? ==> c.seen < c'.seen)
  {
    ReachableInv(s);
    assert CallInv(s.m, s.calls[i]);
  }

  lemma {:induction false} QuiescentSums(calls: seq<Call>)
    requires forall i | 0 <= i < |calls| :: calls[i].pc.Done?
    ensures Sum(calls, InTotal) == Sum(calls, InCount) == |calls|
    ensures Sum(calls, InSuccess) == Sum(calls, Succeeded)
    ensures Sum(calls, InSuccess) + Sum(calls, InFailed) == |calls|
    ensures Sum(calls, InSum) == Sum(calls, Latency)
  {
    if calls != [] {
      QuiescentSums(calls[1..]);
    }
  }

  lemma {:induction false} SumAtMost(calls: seq<Call>, high: nat)
    requires forall i | 0 <= i < |calls| :: calls[i].latency <= high
    ensures Sum(calls, Latency) <= high * |calls|
  {
    if calls != [] {
      SumAtMost(calls[1..], high);
      assert high * |calls| == high + high * |calls[1..]|;
    }
  }

  // When nothing is in flight the counters are true and the average lies between the extremes.
  lemma QuiescentCounters(s: State)
    requires Reachable(s) && Quiescent(s) && NoOverflow(s)
    ensures s.m.total == s.m.count == |s.calls| && s.m.sum == Sum(s.calls, Latency)
    ensures s.m.success == Sum(s.calls, Succeeded) && s.m.failed == |s.calls| - s.m.success
    ensures s.calls != [] ==> s.m.min <= s.m.sum / s.m.count <= s.m.max
  {
    ReachableInv(s);
    WordsAreExact(s);
    QuiescentSums(s.calls);
    if s.calls != [] {
      ExtremesAreExact(s);
      AverageFromBelow(s, s.m.count, s.m.min);
      SumAtMost(s.calls, s.m.max);
      QuotientBelow(s.m.sum, s.m.count, s.m.max);
    }
  }

  // An average read at any moment, with requests in flight, is 0 from a count of zero, and otherwise
  // at least the smallest latency started so far.
  lemma AverageReadMidFlight(s: State, r: nat, low: nat)
    requires Reachable(s) && NoOverflow(s) && r < |s.readers| && s.readers[r].Answer?
    requires AllAtLeast(s.calls, low)
    ensures if s.readers[r].count == 0 then s.readers[r].average == 0 else low <= s.readers[r].average
  {
    ReachableInv(s);
    assert ReaderInv(s, s.readers[r]);
  }

  lemma {:induction false} RunAppend(s: State, run: seq<Step>, step: Step)
    requires ValidRun(s, run) && Enabled(After(s, run), step)
    ensures ValidRun(s, run + [step]) && After(s, run + [step]) == Apply(After(s, run), step)
    decreases |run|
  {
    if run != [] {
      RunAppend(Apply(s, run[0]), run[1..], step);
      assert (run + [step])[1..] == run[1..] + [step];
    } else {
      assert [step][1..] == [];
    }
  }

  lemma ReachableStep(s: State, step: Step)
    requires Reachable(s) && Enabled(s, step)
    ensures Reachable(Apply(s, step))
  {
    var run :| ValidRun(START, run) && s == After(START, run);
    RunAppend(START, run, step);
  }

  lemma {:induction false} ReachableSteps(s: State, i: nat, k: nat) returns (s': State)
    requires Reachable(s) && i < |s.calls| && Rank(s.calls[i].pc) == 0 && k <= 4
    ensures Reachable(s') && s'.readers == s.readers && |s'.calls| == |s.calls|
    ensures forall j | 0 <= j < |s.calls| ::
              if j != i then s'.calls[j] == s.calls[j]
              else Rank(s'.calls[j].pc) == k && s'.calls[j].latency == s.calls[j].latency
    ensures s'.m.sum == if 3 <= k then FetchAdd(s.m.sum, s.calls[i].latency) else s.m.sum
    ensures s'.m.count == if 4 <= k then FetchAdd(s.m.count, 1) else s.m.count
  {
    if k == 0 {
      s' := s;
    } else {
      s' := ReachableSteps(s, i, k - 1);
      ReachableStep(s', Advance(i, false));
      s' := Apply(s', Advance(i, false));
    }
  }

  ghost predicate Misleading(s: State) {
    exists r :: 0 <= r < |s.readers| && s.readers[r].Answer? &&
                forall i | 0 <= i < |s.calls| :: s.calls[i].latency < s.readers[r].average
  }

  // There is no such bound from above: a request that has added its latency but is not counted
  // yet can lift the average over every latency there is.
  lemma AverageCanExceedEveryLatency() returns (s: State)
    ensures Reachable(s) && NoOverflow(s) && Misleading(s)
  {
    assert ValidRun(START, []) && After(START, []) == START;
    ReachableStep(START, Begin(true, 10));
    s := ReachableSteps(Apply(START, Begin(true, 10)), 0, 4);
    ReachableStep(s, Begin(true, 100));
    s := ReachableSteps(Apply(s, Begin(true, 100)), 1, 3);
    ReachableStep(s, BeginReading);
    s := Apply(s, BeginReading);
    ReachableStep(s, Read(0));
    s := Apply(s, Read(0));
    ReachableStep(s, Read(0));
    s := Apply(s, Read(0));
    assert s.readers[0] == Answer(1, 110);
    assert Sum(s.calls, Latency) == 10 + Sum(s.calls[1..], Latency);
    assert Sum(s.calls[1..], Latency) == 100 + Sum(s.calls[1..][1..], Latency);
    assert s.calls[1..][1..] == [];
    assert Misleading(s);
  }

  /// The counters as an object that one thread uses

  function Recorded(m: Counters, ok: bool, latency: nat): Counters {
    Counters(FetchAdd(m.total, 1),
             if ok then FetchAdd(m.success, 1) else m.success,
             if ok then m.failed else FetchAdd(m.failed, 1),
             FetchAdd(m.sum, latency),
             FetchAdd(m.count, 1),
             if latency < m.min then latency else m.min,
             if m.max < latency then latency else m.max)
  }

  // A request that nothing interrupts.
  function RunAlone(m: Counters, c: Call): Counters
    requires (c.pc.CasMin? ==> c.pc.seen == m.min) && (c.pc.CasMax? ==> c.pc.seen == m.max)
    decreases 8 - Rank(c.pc)
  {
    if c.pc.Done? then m
    else RunAlone(CountersAfter(m, c, false), c.(pc := PcAfter(m, c, false)))
  }

  lemma RunAloneMax(m: Counters, c: Call)
    requires c.pc.LoadMax?
    ensures RunAlone(m, c) == m.(max := if m.max < c.latency then c.latency else m.max)
  {
    var c1 := c.(pc := PcAfter(m, c, false));
    assert RunAlone(m, c) == RunAlone(m, c1);
    if c1.pc.CasMax? {
      assert RunAlone(m, c1) == RunAlone(m.(max := c.latency), c.(pc := Done));
    }
  }

  lemma RunAloneFrom(m: Counters, c: Call)
    requires c.pc.LoadMin?
    ensures RunAlone(m, c) == m.(min := if c.latency < m.min then c.latency else m.min,
                                 max := if m.max < c.latency then c.latency else m.max)
  {
    var c1 := c.(pc := PcAfter(m, c, false));
    assert RunAlone(m, c) == RunAlone(m, c1);
    if c1.pc.CasMin? {
      assert RunAlone(m, c1) == RunAlone(m.(min := c.latency), c.(pc := LoadMax));
      RunAloneMax(m.(min := c.latency), c.(pc := LoadMax));
    } else {
      RunAloneMax(m, c1);
    }
  }

  // The interleaved request, left alone, does what the sequential one does.
  lemma AloneRecords(m: Counters, ok: bool, latency: nat)
    ensures RunAlone(m, Call(ok, latency, AddTotal)) == Recorded(m, ok, latency)
  {
    var c := Call(ok, latency, AddTotal);
    var m1 := CountersAfter(m, c, false);
    var m2 := CountersAfter(m1, c.(pc := AddOutcome), false);
    var m3 := CountersAfter(m2, c.(pc := AddSum), false);
    var m4 := CountersAfter(m3, c.(pc := AddCount), false);
    RunAloneFrom(m4, c.(pc := LoadMin));
    assert RunAlone(m3, c.(pc := AddCount)) == RunAlone(m4, c.(pc := LoadMin));
    assert RunAlone(m2, c.(pc := AddSum)) == RunAlone(m3, c.(pc := AddCount));
    assert RunAlone(m1, c.(pc := AddOutcome)) == RunAlone(m2, c.(pc := AddSum));
  }

  class Recorder {
    var counters: Counters
    var eventsProcessed: nat
    var bytesReceived: nat

    constructor ()
      ensures counters == START.m && eventsProcessed == 0 && bytesReceived == 0
    {
      counters := START.m;
      eventsProcessed, bytesReceived := 0, 0;
    }

    // Each exchange may fail a bounded number of times for no reason.
    method Request(ok: bool, latency: nat, failures: nat)
      modifies this`counters
      ensures counters == Recorded(old(counters), ok, latency)
    {
      counters := counters.(total := FetchAdd(counters.total, 1));
      if ok {
        counters := counters.(success := FetchAdd(counters.success, 1));
      } else {
        counters := counters.(failed := FetchAdd(counters.failed, 1));
      }
      counters := counters.(sum := FetchAdd(counters.sum, latency));
      counters := counters.(count := FetchAdd(counters.count, 1));
      ghost var m := counters;
      var left := failures;
      var currentMin := counters.min;
      while latency < currentMin
        invariant counters == m && currentMin == m.min
        decreases left
      {
        if left == 0 {
          counters := counters.(min := latency);
          break;
        }
        left, currentMin := left - 1, counters.min;
      }
      m := counters;
      left := failures;
      var currentMax := counters.max;
      while currentMax < latency
        invariant counters == m && currentMax == m.max
        decreases left
      {
        if left == 0 {
          counters := counters.(max := latency);
          break;
        }
        left, currentMax := left - 1, counters.max;
      }
    }

    method Bytes(n: nat)
      modifies this`bytesReceived
      ensures bytesReceived == FetchAdd(old(bytesReceived), n)
    {
      bytesReceived := FetchAdd(bytesReceived, n);
    }

    method EventDone()
      modifies this`eventsProcessed
      ensures eventsProcessed == FetchAdd(old(eventsProcessed), 1)
    {
      eventsProcessed := FetchAdd(eventsProcessed, 1);
    }
  }
}
