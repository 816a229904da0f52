/** How long the threads of the event queue can go on: a bound for any number of threads. */
module QueueProgress {
  import opened QueueMonitor

  /// Weights

  // A close wakes up to n threads twice.
  function OpWeight(op: Op, n: nat): nat {
    if op.Close? then 4 * n else 0
  }

  // How many steps a thread can still take or cause inside its call, among n threads. A sleeper
  // weighs less than the thread it becomes when it is woken; whoever wakes it pays the difference.
  function PcWeight(pc: Pc, n: nat): nat {
    match pc
    case Idle => 0
    case Entering(op) => 8 + OpWeight(op, n)
    case Woken(op) => 8 + OpWeight(op, n)
    case Testing(op) => 7 + OpWeight(op, n)
    case Asleep(op) => 6 + OpWeight(op, n)
    case Signalling(_, _) => 5
    case WakingPoppers => 4 * n + 6
    case WakingPushers => 2 * n + 4
    case Leaving(_, _) => 2
    case Returned(_, _) => 1
  }

  function Total(pcs: seq<Pc>, n: nat): nat {
    if pcs == [] then 0 else PcWeight(pcs[0], n) + Total(pcs[1..], n)
  }

  lemma {:induction false} TotalUpdate(pcs: seq<Pc>, t: nat, pc: Pc, n: nat)
    requires t < |pcs|
    ensures Total(pcs[t := pc], n) == Total(pcs, n) - PcWeight(pcs[t], n) + PcWeight(pc, n)
  {
    if t == 0 {
      assert pcs[t := pc][1..] == pcs[1..];
    } else {
      TotalUpdate(pcs[1..], t - 1, pc, n);
      assert pcs[t := pc][1..] == pcs[1..][t - 1 := pc];
    }
  }

  // Each thread weighs at most two more.
  lemma {:induction false} TotalGrows(pcs: seq<Pc>, pcs': seq<Pc>, n: nat)
    requires |pcs'| == |pcs| && forall u | 0 <= u < |pcs| :: PcWeight(pcs'[u], n) <= PcWeight(pcs[u], n) + 2
    ensures Total(pcs', n) <= Total(pcs, n) + 2 * |pcs|
  {
    if pcs != [] {
      assert PcWeight(pcs'[0], n) <= PcWeight(pcs[0], n) + 2;
      TotalGrows(pcs[1..], pcs'[1..], n);
    }
  }

  function Weight(s: State): nat { Total(s.pcs, |s.pcs|) }

  // What comes from outside: calls, and wakeups without a signal.
  function Price(a: Action, n: nat): nat {
    match a
    case Call(op) => 9 + OpWeight(op, n)
    case Spurious => 3
    case _ => 0
  }

  /// Steps

  lemma MoveAlone(s: State, t: nat, a: Action)
    requires Enabled(s, t, a) && !a.Notify?
    ensures var s' := Apply(s, t, a);
            |s'.pcs| == |s.pcs| && s'.pcs == s.pcs[t := s'.pcs[t]]
            && PcWeight(s'.pcs[t], |s.pcs|) < PcWeight(s.pcs[t], |s.pcs|) + Price(a, |s.pcs|)
  {
  }

  lemma SignalOne(s: State, t: nat, a: Action)
    requires Enabled(s, t, a) && a.Notify? && s.pcs[t].Signalling?
    ensures |Apply(s, t, a).pcs| == |s.pcs| && Weight(Apply(s, t, a)) < Weight(s)
  {
    var n, s' := |s.pcs|, Apply(s, t, a);
    var left := s.pcs[t := Leaving(s.pcs[t].op, s.pcs[t].reply)];
    TotalUpdate(s.pcs, t, left[t], n);
    if a.wake.Some? {
      var u := a.wake.value;
      TotalUpdate(left, u, s'.pcs[u], n);
      assert s'.pcs == left[u := s'.pcs[u]];
    } else {
      assert s'.pcs == left;
    }
  }

  lemma Broadcast(s: State, t: nat, a: Action)
    requires Enabled(s, t, a) && a.Notify? && !s.pcs[t].Signalling?
    ensures |Apply(s, t, a).pcs| == |s.pcs| && Weight(Apply(s, t, a)) < Weight(s)
  {
    var n, s' := |s.pcs|, Apply(s, t, a);
    var moved := s.pcs[t := s'.pcs[t]];
    TotalUpdate(s.pcs, t, s'.pcs[t], n);
    TotalGrows(moved, s'.pcs, n);
  }

  lemma WeightFalls(s: State, t: nat, a: Action)
    requires Enabled(s, t, a)
    ensures |Apply(s, t, a).pcs| == |s.pcs|
    ensures Weight(Apply(s, t, a)) < Weight(s) + Price(a, |s.pcs|)
  {
    if !a.Notify? {
      MoveAlone(s, t, a);
      TotalUpdate(s.pcs, t, Apply(s, t, a).pcs[t], |s.pcs|);
    } else if s.pcs[t].Signalling? {
      SignalOne(s, t, a);
    } else {
      Broadcast(s, t, a);
    }
  }

  /// Runs

  function TotalPrice(run: seq<Step>, n: nat): nat {
    if run == [] then 0 else Price(run[0].a, n) + TotalPrice(run[1..], n)
  }

  // Whatever the number of threads and the order they run in, a run is no longer than its initial
  // weight and what calls and spurious wakeups add: no thread goes round in circles, and every call
  // returns or waits after boundedly many steps of all threads together.
  lemma {:induction false} RunsAreBounded(s: State, run: seq<Step>)
    requires ValidRun(s, run)
    ensures |After(s, run).pcs| == |s.pcs|
    ensures |run| + Weight(After(s, run)) <= Weight(s) + TotalPrice(run, |s.pcs|)
    decreases |run|
  {
    if run != [] {
      WeightFalls(s, run[0].t, run[0].a);
      RunsAreBounded(Apply(s, run[0].t, run[0].a), run[1..]);
    }
  }

  function Calls(run: seq<Step>, closing: bool): nat {
    if run == [] then 0
    else (if run[0].a.Call? && run[0].a.op.Close? == closing then 1 else 0) + Calls(run[1..], closing)
  }

  function SpuriousWakeups(run: seq<Step>): nat {
    if run == [] then 0 else (if run[0].a.Spurious? then 1 else 0) + SpuriousWakeups(run[1..])
  }

  lemma OneMoreClose(n: nat, k: nat)
    ensures (9 + 4 * n) * (k + 1) == (9 + 4 * n) * k + 9 + 4 * n
  {
  }

  lemma {:induction false} PriceInCalls(run: seq<Step>, n: nat)
    ensures TotalPrice(run, n) == 9 * Calls(run, false) + (9 + 4 * n) * Calls(run, true) + 3 * SpuriousWakeups(run)
  {
    if run != [] {
      PriceInCalls(run[1..], n);
      OneMoreClose(n, Calls(run[1..], true));
    }
  }

  lemma {:induction false} IdleWeighsNothing(pcs: seq<Pc>, n: nat)
    requires forall u | 0 <= u < |pcs| :: pcs[u].Idle?
    ensures Total(pcs, n) == 0
  {
    if pcs != [] {
      IdleWeighsNothing(pcs[1..], n);
    }
  }

  // From the start: a push or a pop costs at most nine steps, a close four more for each thread, a
  // spurious wakeup three.
  lemma StepsPerCall(threads: nat, capacity: nat, run: seq<Step>)
    requires ValidRun(Init(threads, capacity), run)
    ensures |run| <= 9 * Calls(run, false) + (9 + 4 * threads) * Calls(run, true) + 3 * SpuriousWakeups(run)
  {
    var s := Init(threads, capacity);
    RunsAreBounded(s, run);
    IdleWeighsNothing(s.pcs, threads);
    PriceInCalls(run, threads);
  }

  // Left to themselves the threads come to rest: from every reachable state some run without new
  // calls and spurious wakeups ends, within the weight, where nothing can move. Then everybody is
  // outside the queue, or asleep for want of what it waits for (QueueMonitor.StuckMeansAsleep).
  lemma {:induction false} RestIsReached(s: State) returns (run: seq<Step>)
    requires Inv(s)
    ensures ValidRun(s, run) && TotalPrice(run, |s.pcs|) == 0 && |run| <= Weight(s)
    ensures Inv(After(s, run)) && Stuck(After(s, run))
    decreases Weight(s)
  {
    if Stuck(s) {
      run := [];
    } else {
      var t: nat, a :| Enabled(s, t, a) && !a.Call? && !a.Spurious?;
      StepKeepsInv(s, t, a);
      WeightFalls(s, t, a);
      var rest := RestIsReached(Apply(s, t, a));
      run := [Step(t, a)] + rest;
      assert run[1..] == rest;
    }
  }
}
