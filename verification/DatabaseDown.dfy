/** The program without its database: what the reconnect loop of the writer, which never looks at
    the running flag, does to the shutdown. */
module DatabaseDown {
  import opened EventTypes
  import opened Pipeline
  import opened Shutdown
  import Abandoned
  import Q = QueueMonitor

  // A connection attempt that succeeds.
  predicate Connects(p: Program, step: Step) {
    p.writer.Connecting? && step == WriterStep(true)
  }

  // A run in which none does.
  ghost predicate WithoutConnection(s: State, run: seq<Step>)
    requires ValidRun(s, run)
    decreases |run|
  {
    run == [] || (!Connects(s.p, run[0]) && WithoutConnection(Apply(s, run[0]), run[1..]))
  }

  /// The loop does not end by itself

  lemma StillConnecting(p: Program, step: Step, reply: Option<Event>, closed: bool)
    requires p.writer.Connecting? && !Connects(p, step) && ProgramEnabled(p, step) && LifetimesInv(p, closed)
    ensures ProgramApply(p, step, reply).writer.Connecting?
  {
  }

  // As long as no attempt succeeds the writer tries again, and main does not leave.
  lemma {:induction false} ConnectingForEver(s: State, run: seq<Step>)
    requires Inv(s) && s.p.writer.Connecting? && ValidRun(s, run) && WithoutConnection(s, run)
    ensures Inv(After(s, run)) && After(s, run).p.writer.Connecting? && !After(s, run).p.main.Exited?
    decreases |run|
  {
    if run != [] {
      StepKeepsInv(s, run[0]);
      StillConnecting(s.p, run[0], PopReply(s.q.pcs[WRITER]), s.q.ring.closed);
      ConnectingForEver(Apply(s, run[0]), run[1..]);
    }
  }

  /// Who is not connecting needs no connection

  lemma NotConnecting(p: Program, step: Step, reply: Option<Event>, closed: bool)
    requires !p.writer.Connecting? && p.exitRequested && LifetimesInv(p, closed) && ProgramEnabled(p, step)
    requires step.WriterStep? ==> step.ok
    ensures !ProgramApply(p, step, reply).writer.Connecting?
  {
  }

  lemma {:induction false} ExitWithoutConnection(s: State) returns (run: seq<Step>)
    requires Inv(s) && s.p.exitRequested && !s.p.writer.Connecting?
    ensures ValidRun(s, run) && WithoutConnection(s, run) && TotalPrice(s, run) == 0
    ensures After(s, run).p.main.Exited? && |run| <= Weight(s)
    decreases Weight(s)
  {
    if s.p.main.Exited? {
      run := [];
    } else {
      var step := ShutdownNeverStuck(s);
      StepKeepsInv(s, step);
      WeightFalls(s, step);
      ExitStaysRequested(s.p, step, PopReply(s.q.pcs[WRITER]));
      NotConnecting(s.p, step, PopReply(s.q.pcs[WRITER]), s.q.ring.closed);
      var rest := ExitWithoutConnection(Apply(s, step));
      run := [step] + rest;
      assert run[1..] == rest;
    }
  }

  ghost predicate CanExit(s: State, run: seq<Step>) {
    ValidRun(s, run) && After(s, run).p.main.Exited?
  }

  // Once the exit has been requested, main can leave without a connection attempt that succeeds if
  // and only if the writer is not in the reconnect loop. (By ExitIsReached it always can with one.)
  lemma ExitWithoutConnectionIff(s: State)
    requires Inv(s) && s.p.exitRequested
    ensures (exists run :: CanExit(s, run) && WithoutConnection(s, run)) <==> !s.p.writer.Connecting?
  {
    if s.p.writer.Connecting? {
      forall run | CanExit(s, run) && WithoutConnection(s, run)
        ensures false
      {
        ConnectingForEver(s, run);
      }
    } else {
      var run := ExitWithoutConnection(s);
      assert CanExit(s, run);
    }
  }

  // Whatever order the threads run in, there is no other way to get stuck: a run that only a
  // connection could continue has reached the end of main or the reconnect loop.
  lemma StuckInTheLoop(s: State, run: seq<Step>)
    requires Inv(s) && s.p.exitRequested && ValidRun(s, run)
    requires forall step | Enabled(After(s, run), step) ::
               0 < Price(After(s, run).p, step) || Connects(After(s, run).p, step)
    ensures After(s, run).p.main.Exited? || After(s, run).p.writer.Connecting?
  {
    RunKeepsExit(s, run);
    if !After(s, run).p.main.Exited? {
      var step := ShutdownNeverStuck(After(s, run));
    }
  }

  /// A shutdown that hangs

  lemma OnlyTheWriterMoves(s: State, step: Step)
    requires Inv(s) && s.p.main.JoinWriter? && s.p.writer.Connecting? && Enabled(s, step)
    requires s.q.pcs == Abandoned.ALL_IDLE
    ensures step.WriterStep?
  {
    assert s.q.pcs[MAIN].Idle? && s.q.pcs[WEBSOCKET].Idle? && s.q.pcs[POLLER].Idle? && s.q.pcs[WRITER].Idle?;
  }

  // The hang is real: the database has never been reachable, the exit has been requested, both
  // producers are gone and the queue is closed; every step left is a connection attempt, and
  // however many fail, main waits for the writer.
  lemma ShutdownCanHang(tables: Tables, e: Event) returns (s: State)
    ensures Reachable(s, 1) && s.p.exitRequested && s.q.ring.closed && s.p.main.JoinWriter?
    ensures forall step | Enabled(s, step) :: step.WriterStep?
    ensures forall run | ValidRun(s, run) && WithoutConnection(s, run) :: !After(s, run).p.main.Exited?
  {
    s := Abandoned.CloseBeforeConnecting(tables, e);
    ReachableInv(s, 1);
    forall step | Enabled(s, step)
      ensures step.WriterStep?
    {
      OnlyTheWriterMoves(s, step);
    }
    forall run | ValidRun(s, run) && WithoutConnection(s, run)
      ensures !After(s, run).p.main.Exited?
    {
      ConnectingForEver(s, run);
    }
  }
}
