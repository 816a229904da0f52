/** How long the program can go on. A weight is attached to every state such that each step that
    the program takes by itself makes it smaller; what can prolong a run is listed, with its
    price, as the environment's share. */
module Shutdown {
  import opened EventTypes
  import opened Pipeline
  import Q = QueueMonitor

  // Price of one event that is still to be pushed, and of one that is queued.
  const PER_EVENT: nat := 20
  const PER_QUEUED: nat := 11

  function OpWeight(op: Q.Op): nat {
    match op case Push(_) => 10 case Pop => 0 case Close => 10
  }

  // A signal costs two (it moves one sleeper), a broadcast six (three sleepers); a pop that got
  // an event carries the price of storing it.
  function PcWeight(pc: Q.Pc): nat {
    match pc
    case Idle => 0
    case Entering(op) => 8 + OpWeight(op)
    case Woken(op) => 8 + OpWeight(op)
    case Testing(op) => 7 + OpWeight(op)
    case Asleep(op) => 6 + OpWeight(op)
    case Signalling(_, reply) => 5 + (if reply.Got? then PER_QUEUED else 0)
    case WakingPoppers => 16
    case WakingPushers => 9
    case Leaving(_, reply) => 2 + (if reply.Got? then PER_QUEUED else 0)
    case Returned(_, reply) => 1 + (if reply.Got? then PER_QUEUED else 0)
  }

  function QueueWeight(q: Q.State): nat
    requires |q.pcs| == 4
  {
    PcWeight(q.pcs[MAIN]) + PcWeight(q.pcs[WEBSOCKET]) + PcWeight(q.pcs[POLLER]) + PcWeight(q.pcs[WRITER])
    + PER_QUEUED * q.ring.size
  }

  function MainWeight(m: MainPc): nat {
    match m
    case StartWriter => 45 case StartWebsocket => 34 case StartPoller => 31 case Waiting => 28
    case StopWebsocket => 27 case JoinWebsocket => 26 case StopPoller => 25 case JoinPoller => 24
    case CallClose => 23 case InClose => 4 case StopWriter => 3 case JoinWriter => 2
    case Destroy => 1 case Exited => 0
  }

  function ProducerWeight(pc: ProducerPc): nat {
    match pc
    case NotStarted => 0
    case Booting => 2
    case LoopHead => 1
    case Delivering(rest) => 2 + PER_EVENT * |rest|
    case Pushing(rest) => 2 + PER_EVENT * |rest|
    case Finished => 0
  }

  function WriterWeight(pc: WriterPc): nat {
    match pc
    case WNotStarted => 0
    case Connecting => 10
    case WLoopHead => 9
    case Popping => 0
    case Holding(_) => 11
    case WFinished => 0
  }

  function ProgramWeight(p: Program): nat {
    MainWeight(p.main) + ProducerWeight(p.websocket) + ProducerWeight(p.poller) + WriterWeight(p.writer)
  }

  function Weight(s: State): nat
    requires |s.q.pcs| == 4
  {
    QueueWeight(s.q) + ProgramWeight(s.p)
  }

  // What a step adds from outside: the exit signal, a failed connection attempt, a spurious wakeup,
  // and a message taken by a producer whose flag is still up. A connection attempt that succeeds is
  // free, although it needs the database; DatabaseDown says what becomes of a program without one.
  function Price(p: Program, step: Step): nat {
    match step
    case RaiseExit => 1
    case MainStep(_) => 0
    case ProducerStep(w, _, batch) =>
      if Producer(p, w).LoopHead? && Running(p, w) then 2 + PER_EVENT * |batch| else 0
    case WriterStep(ok) => if p.writer.Connecting? && !ok then 1 else 0
    case QueueStep(_, a) => if a.Spurious? then 3 else 0
  }

  // Only thread t moves.
  lemma OneThreadMoves(q: Q.State, q': Q.State, t: nat)
    requires |q.pcs| == 4 && |q'.pcs| == 4 && t < 4
    requires forall u | 0 <= u < 4 && u != t :: q'.pcs[u] == q.pcs[u]
    ensures QueueWeight(q') - QueueWeight(q)
         == PcWeight(q'.pcs[t]) - PcWeight(q.pcs[t]) + PER_QUEUED * q'.ring.size - PER_QUEUED * q.ring.size
  {
    assert forall u: nat | u < 4 :: u in [MAIN, WEBSOCKET, POLLER, WRITER];
  }

  lemma MoveAlone(q: Q.State, t: nat, a: Q.Action)
    requires |q.pcs| == 4 && Q.Enabled(q, t, a) && !a.Call? && !a.Return? && !a.Notify?
    ensures var q' := Q.Apply(q, t, a);
            |q'.pcs| == 4 && QueueWeight(q') < QueueWeight(q) + (if a.Spurious? then 3 else 0)
  {
    var q' := Q.Apply(q, t, a);
    OneThreadMoves(q, q', t);
  }

  lemma Broadcast(q: Q.State, t: nat, a: Q.Action)
    requires |q.pcs| == 4 && Q.Enabled(q, t, a) && a.Notify? && !q.pcs[t].Signalling?
    ensures |Q.Apply(q, t, a).pcs| == 4 && QueueWeight(Q.Apply(q, t, a)) < QueueWeight(q)
  {
    var q' := Q.Apply(q, t, a);
    assert PcWeight(q'.pcs[t]) + 7 == PcWeight(q.pcs[t]);
    forall u | 0 <= u < 4 && u != t
      ensures PcWeight(q'.pcs[u]) <= PcWeight(q.pcs[u]) + 2
    {
    }
    assert t == MAIN || t == WEBSOCKET || t == POLLER || t == WRITER;
  }

  lemma Signal(q: Q.State, t: nat, a: Q.Action)
    requires |q.pcs| == 4 && Q.Enabled(q, t, a) && a.Notify? && q.pcs[t].Signalling?
    ensures |Q.Apply(q, t, a).pcs| == 4 && QueueWeight(Q.Apply(q, t, a)) < QueueWeight(q)
  {
    var q' := Q.Apply(q, t, a);
    var q1 := Q.At(q, t, q'.pcs[t]);
    var u := if a.wake.Some? then a.wake.value else t;
    assert q'.ring == q.ring == q1.ring;
    assert PcWeight(q1.pcs[t]) + 3 <= PcWeight(q.pcs[t]);
    assert PcWeight(q'.pcs[u]) <= PcWeight(q1.pcs[u]) + 2;
    OneThreadMoves(q, q1, t);
    OneThreadMoves(q1, q', u);
  }

  lemma QueueWeightFalls(q: Q.State, t: nat, a: Q.Action)
    requires |q.pcs| == 4 && Q.Enabled(q, t, a) && !a.Call? && !a.Return?
    ensures var q' := Q.Apply(q, t, a);
            |q'.pcs| == 4 && QueueWeight(q') < QueueWeight(q) + (if a.Spurious? then 3 else 0)
  {
    if !a.Notify? {
      MoveAlone(q, t, a);
    } else if q.pcs[t].Signalling? {
      Signal(q, t, a);
    } else {
      Broadcast(q, t, a);
    }
  }

  lemma MainWeightFalls(p: Program, ok: bool, closed: bool)
    requires ProgramEnabled(p, MainStep(ok)) && LifetimesInv(p, closed)
    ensures ProgramWeight(MainApply(p, ok)) < ProgramWeight(p)
    ensures p.main.CallClose? ==> ProgramWeight(MainApply(p, ok)) + 19 <= ProgramWeight(p)
  {
  }

  lemma ProducerWeightFalls(p: Program, w: bool, ok: bool, batch: seq<Event>)
    requires Alive(Producer(p, w))
    ensures ProgramWeight(ProducerApply(p, w, ok, batch)) <= ProgramWeight(p) + Price(p, ProducerStep(w, ok, batch))
    ensures !Producer(p, w).Pushing? ==>
              ProgramWeight(ProducerApply(p, w, ok, batch)) < ProgramWeight(p) + Price(p, ProducerStep(w, ok, batch))
    ensures Producer(p, w).Delivering? && Producer(p, w).rest != [] ==>
              ProgramWeight(ProducerApply(p, w, ok, batch)) + PER_EVENT == ProgramWeight(p)
  {
  }

  lemma WriterWeightFalls(p: Program, ok: bool, reply: Option<Event>)
    requires !p.writer.WNotStarted? && !p.writer.WFinished?
    ensures ProgramWeight(WriterApply(p, ok, reply))
         <= ProgramWeight(p) + (if p.writer.Popping? && reply.Some? then PER_QUEUED else 0)
    ensures !p.writer.Popping? ==>
              ProgramWeight(WriterApply(p, ok, reply)) < ProgramWeight(p) + Price(p, WriterStep(ok))
    ensures p.writer.WLoopHead? && p.writerRunning ==> ProgramWeight(WriterApply(p, ok, reply)) + 9 == ProgramWeight(p)
  {
  }

  // Entering a queue function costs the program at least what the call weighs, and returning
  // gives up the weight of the reply.
  lemma CallWeight(q: Q.State, t: nat, a: Q.Action)
    requires |q.pcs| == 4 && Q.Enabled(q, t, a) && (a.Call? || a.Return?)
    ensures var q' := Q.Apply(q, t, a);
            && |q'.pcs| == 4
            && (a.Call? ==> QueueWeight(q') == QueueWeight(q) + 8 + OpWeight(a.op))
            && (a.Return? ==> QueueWeight(q') == QueueWeight(q) - PcWeight(q.pcs[t]))
  {
    OneThreadMoves(q, Q.Apply(q, t, a), t);
  }

  lemma MainStepWeight(s: State, ok: bool)
    requires LifetimesInv(s.p, s.q.ring.closed) && Enabled(s, MainStep(ok))
    ensures var s' := Apply(s, MainStep(ok)); |s'.q.pcs| == 4 && Weight(s') < Weight(s)
  {
    MainWeightFalls(s.p, ok, s.q.ring.closed);
    var x := QueuePart(s.p, MainStep(ok));
    if x.Some? {
      CallWeight(s.q, x.value.t, x.value.a);
    }
  }

  lemma ProducerStepWeight(s: State, w: bool, ok: bool, batch: seq<Event>)
    requires Enabled(s, ProducerStep(w, ok, batch))
    ensures var s' := Apply(s, ProducerStep(w, ok, batch));
            |s'.q.pcs| == 4 && Weight(s') < Weight(s) + Price(s.p, ProducerStep(w, ok, batch))
  {
    ProducerWeightFalls(s.p, w, ok, batch);
    var x := QueuePart(s.p, ProducerStep(w, ok, batch));
    if x.Some? {
      CallWeight(s.q, x.value.t, x.value.a);
    }
  }

  lemma WriterStepWeight(s: State, ok: bool)
    requires Enabled(s, WriterStep(ok))
    ensures var s' := Apply(s, WriterStep(ok));
            |s'.q.pcs| == 4 && Weight(s') < Weight(s) + Price(s.p, WriterStep(ok))
  {
    WriterWeightFalls(s.p, ok, PopReply(s.q.pcs[WRITER]));
    var x := QueuePart(s.p, WriterStep(ok));
    if x.Some? {
      CallWeight(s.q, x.value.t, x.value.a);
    }
  }

  lemma WeightFalls(s: State, step: Step)
    requires CallsInv(s) && LifetimesInv(s.p, s.q.ring.closed) && Enabled(s, step)
    ensures |Apply(s, step).q.pcs| == 4
    ensures Weight(Apply(s, step)) < Weight(s) + Price(s.p, step)
  {
    match step {
      case QueueStep(t, a) => QueueWeightFalls(s.q, t, a);
      case RaiseExit =>
      case MainStep(ok) => MainStepWeight(s, ok);
      case ProducerStep(w, ok, batch) => ProducerStepWeight(s, w, ok, batch);
      case WriterStep(ok) => WriterStepWeight(s, ok);
    }
  }

  lemma ExitStaysRequested(p: Program, step: Step, reply: Option<Event>)
    requires p.exitRequested
    ensures ProgramApply(p, step, reply).exitRequested
  {
  }

  ghost function TotalPrice(s: State, run: seq<Step>): nat
    requires ValidRun(s, run)
    decreases |run|
  {
    if run == [] then 0 else Price(s.p, run[0]) + TotalPrice(Apply(s, run[0]), run[1..])
  }

  // No run is longer than the weight it starts with and what the environment adds on the way.
  lemma {:induction false} RunsAreBounded(s: State, run: seq<Step>)
    requires Inv(s) && ValidRun(s, run)
    ensures |After(s, run).q.pcs| == 4
    ensures |run| + Weight(After(s, run)) <= Weight(s) + TotalPrice(s, run)
    decreases |run|
  {
    if run != [] {
      StepKeepsInv(s, run[0]);
      WeightFalls(s, run[0]);
      RunsAreBounded(Apply(s, run[0]), run[1..]);
    }
  }

  predicate Quiet(pc: Q.Pc) { pc.Idle? || pc.Asleep? }

  // A thread that is inside a queue function and not asleep gives the program a free step, in which
  // whatever the writer asks of the database succeeds.
  lemma QueueMoves(s: State, t: nat) returns (step: Step)
    requires Inv(s) && t < 4 && !Quiet(s.q.pcs[t])
    ensures Enabled(s, step) && Price(s.p, step) == 0 && (step.WriterStep? ==> step.ok)
  {
    if s.q.pcs[t].Returned? {
      step := if t == MAIN then MainStep(true)
              else if t == WRITER then WriterStep(true)
              else ProducerStep(t == WEBSOCKET, true, []);
    } else {
      var u := if s.q.owner.Some? then s.q.owner.value else t;
      var a := Q.CanMove(s.q, u);
      step := QueueStep(u, a);
    }
  }

  // A producer whose flag is down can go on, unless it sleeps in a push.
  lemma ProducerMoves(s: State, w: bool) returns (step: Step)
    requires CallsInv(s) && Alive(Producer(s.p, w)) && !Running(s.p, w)
    requires s.q.pcs[Thread(w)].Idle? && s.q.ring.WellFormed()
    ensures Enabled(s, step) && Price(s.p, step) == 0 && (step.WriterStep? ==> step.ok)
  {
    step := ProducerStep(w, true, []);
  }

  // The writer can go on, unless it sleeps in a pop.
  lemma WriterMoves(s: State) returns (step: Step)
    requires CallsInv(s) && !s.p.writer.WNotStarted? && !s.p.writer.WFinished?
    requires s.q.pcs[WRITER].Idle? && s.q.ring.WellFormed()
    ensures Enabled(s, step) && Price(s.p, step) == 0 && (step.WriterStep? ==> step.ok)
  {
    step := WriterStep(true);
  }

  // While main waits for a producer that sleeps on the full queue, the writer can go on.
  lemma JoinMoves(s: State, w: bool) returns (step: Step)
    requires Inv(s) && forall u | 0 <= u < 4 :: Quiet(s.q.pcs[u])
    requires if w then s.p.main.JoinWebsocket? && !s.p.websocket.Finished?
             else s.p.main.JoinPoller? && !s.p.poller.Finished?
    ensures Enabled(s, step) && Price(s.p, step) == 0 && (step.WriterStep? ==> step.ok)
  {
    if s.q.pcs[Thread(w)].Idle? {
      step := ProducerMoves(s, w);
    } else {
      Q.QuietQueue(s.q);
      assert Q.SleepingPusher(s.q.pcs[Thread(w)]);
      assert !Q.SleepingPopper(s.q.pcs[WRITER]);
      step := WriterMoves(s);
    }
  }

  // Once the exit has been requested there is always a free step until main has left, if connection
  // attempts succeed: no lock, wait or join stops the shutdown, whatever the threads were doing.
  lemma ShutdownNeverStuck(s: State) returns (step: Step)
    requires Inv(s) && s.p.exitRequested && !s.p.main.Exited?
    ensures Enabled(s, step) && Price(s.p, step) == 0 && (step.WriterStep? ==> step.ok)
  {
    if t :| 0 <= t < 4 && !Quiet(s.q.pcs[t]) {
      step := QueueMoves(s, t);
    } else {
      Q.QuietQueue(s.q);
      assert Quiet(s.q.pcs[MAIN]) && Q.PcInv(s.q.ring, s.q.pcs[MAIN]);
      if s.p.main.JoinWebsocket? && !s.p.websocket.Finished? {
        step := JoinMoves(s, true);
      } else if s.p.main.JoinPoller? && !s.p.poller.Finished? {
        step := JoinMoves(s, false);
      } else if s.p.main.JoinWriter? && !s.p.writer.WFinished? {
        assert !Q.SleepingPopper(s.q.pcs[WRITER]);
        step := WriterMoves(s);
      } else {
        step := MainStep(true);
      }
    }
  }

  // From any state in which the exit has been requested, the program reaches the end of main in
  // at most Weight(s) free steps, if connection attempts succeed.
  lemma {:induction false} ExitIsReached(s: State) returns (run: seq<Step>)
    requires Inv(s) && s.p.exitRequested
    ensures ValidRun(s, run) && TotalPrice(s, run) == 0
    ensures After(s, run).p.main.Exited? && |run| <= Weight(s)
    decreases Weight(s)
  {
    if s.p.main.Exited? {
      run := [];
    } else {
      var step := ShutdownNeverStuck(s);
      StepKeepsInv(s, step);
      WeightFalls(s, step);
      ExitStaysRequested(s.p, step, PopReply(s.q.pcs[WRITER]));
      var rest := ExitIsReached(Apply(s, step));
      run := [step] + rest;
      assert run[1..] == rest;
    }
  }

  lemma {:induction false} RunKeepsExit(s: State, run: seq<Step>)
    requires Inv(s) && s.p.exitRequested && ValidRun(s, run)
    ensures Inv(After(s, run)) && After(s, run).p.exitRequested
    decreases |run|
  {
    if run != [] {
      StepKeepsInv(s, run[0]);
      ExitStaysRequested(s.p, run[0], PopReply(s.q.pcs[WRITER]));
      RunKeepsExit(Apply(s, run[0]), run[1..]);
    }
  }

  // Whatever order the threads run in: once the exit has been requested, a run that no free step,
  // a successful connection included, can continue has reached the end of main.
  lemma StoppedRunsHaveExited(s: State, run: seq<Step>)
    requires Inv(s) && s.p.exitRequested && ValidRun(s, run)
    requires forall step | Enabled(After(s, run), step) :: 0 < Price(After(s, run).p, step)
    ensures After(s, run).p.main.Exited?
  {
    RunKeepsExit(s, run);
    if !After(s, run).p.main.Exited? {
      var step := ShutdownNeverStuck(After(s, run));
    }
  }

  /// The price of a run once both producers are told to stop

  predicate Stopping(p: Program) {
    p.exitRequested && !p.websocketRunning && !p.pollerRunning && 3 <= Rank(p.main)
  }

  ghost function FailedConnections(s: State, run: seq<Step>): nat
    requires ValidRun(s, run)
    decreases |run|
  {
    if run == [] then 0
    else
      (if s.p.writer.Connecting? && run[0] == WriterStep(false) then 1 else 0)
      + FailedConnections(Apply(s, run[0]), run[1..])
  }

  function SpuriousWakeups(run: seq<Step>): nat {
    if run == [] then 0
    else (if run[0].QueueStep? && run[0].a.Spurious? then 1 else 0) + SpuriousWakeups(run[1..])
  }

  lemma StoppingLasts(p: Program, step: Step, reply: Option<Event>)
    requires Stopping(p) && ProgramEnabled(p, step)
    ensures Stopping(ProgramApply(p, step, reply))
    ensures Price(p, step) == (if p.writer.Connecting? && step == WriterStep(false) then 1 else 0)
                              + (if step.QueueStep? && step.a.Spurious? then 3 else 0)
  {
  }

  lemma {:induction false} PriceOfStopping(s: State, run: seq<Step>)
    requires Stopping(s.p) && ValidRun(s, run)
    ensures TotalPrice(s, run) == FailedConnections(s, run) + 3 * SpuriousWakeups(run)
    decreases |run|
  {
    if run != [] {
      StoppingLasts(s.p, run[0], PopReply(s.q.pcs[WRITER]));
      PriceOfStopping(Apply(s, run[0]), run[1..]);
    }
  }

  // The shutdown in one statement: once both producers are told to stop, a run of the program
  // can be delayed only by failed connections and spurious wakeups, and if no free step, a
  // successful connection included, can continue it, main has left.
  lemma ShutdownIsBounded(s: State, run: seq<Step>)
    requires Inv(s) && Stopping(s.p) && ValidRun(s, run)
    ensures |run| <= Weight(s) + FailedConnections(s, run) + 3 * SpuriousWakeups(run)
    ensures (forall step | Enabled(After(s, run), step) :: 0 < Price(After(s, run).p, step)) ==> After(s, run).p.main.Exited?
  {
    RunsAreBounded(s, run);
    PriceOfStopping(s, run);
    if forall step | Enabled(After(s, run), step) :: 0 < Price(After(s, run).p, step) {
      StoppedRunsHaveExited(s, run);
    }
  }
}
