/** What the shutdown leaves in the queue. The writer stops at its own flag, so whatever it has not
    taken when the flag falls stays behind, but for one event if it is already inside a pop. */
module Abandoned {
  import opened EventTypes
  import opened RingBuffer
  import opened Pipeline
  import Shutdown
  import Q = QueueMonitor

  // main has lowered the writer's flag.
  predicate FlagIsDown(p: Program) {
    Rank(p.main) >= 11 && !p.writer.WNotStarted?
  }

  // The writer is inside a pop and has not got as far as the ring.
  predicate BeforeTheRing(pc: Q.Pc) {
    pc.Entering? || pc.Testing? || pc.Asleep? || pc.Woken?
  }

  // How many events the writer will still take.
  function WillTake(q: Q.State): (n: nat)
    requires |q.pcs| == 4
    ensures n <= 1 && n <= q.ring.size
  {
    if BeforeTheRing(q.pcs[WRITER]) && 0 < q.ring.size then 1 else 0
  }

  // The events that the writer will not take any more.
  function Left(q: Q.State): seq<Event>
    requires |q.pcs| == 4 && q.ring.WellFormed()
  {
    q.ring.Contents()[WillTake(q)..]
  }

  // On a closed queue only the ring update of a pop changes the ring.
  lemma RingAfter(q: Q.State, t: nat, a: Q.Action)
    requires |q.pcs| == 4 && Q.Enabled(q, t, a) && q.ring.closed
    requires forall u | 0 <= u < 3 :: NeverPops(q.pcs[u])
    ensures var q' := Q.Apply(q, t, a);
            q'.ring == if t == WRITER && q.pcs[t] == Q.Testing(Q.Pop) && a.Update? && 0 < q.ring.size then q.ring.Drop()
                       else q.ring
  {
  }

  lemma WriterAfter(q: Q.State, t: nat, a: Q.Action)
    requires |q.pcs| == 4 && Q.Enabled(q, t, a) && !(t == WRITER && a.Call?)
    ensures var q' := Q.Apply(q, t, a);
            && |q'.pcs| == 4
            && BeforeTheRing(q'.pcs[WRITER]) == (BeforeTheRing(q.pcs[WRITER]) && !(t == WRITER && a.Update?))
  {
  }

  lemma QueueKeepsLeft(q: Q.State, t: nat, a: Q.Action)
    requires |q.pcs| == 4 && Q.Enabled(q, t, a) && q.ring.closed && !(t == WRITER && a.Call?)
    requires forall u | 0 <= u < 3 :: NeverPops(q.pcs[u])
    requires ThreadInv(q.pcs[WRITER], !q.pcs[WRITER].Idle?, 1)
    ensures var q' := Q.Apply(q, t, a); |q'.pcs| == 4 && q'.ring.WellFormed() && Left(q') == Left(q)
  {
    RingAfter(q, t, a);
    WriterAfter(q, t, a);
    if 0 < q.ring.size {
      DropRemovesOldest(q.ring);
    }
  }

  lemma FlagStaysDown(p: Program, step: Step, reply: Option<Event>, closed: bool)
    requires FlagIsDown(p) && LifetimesInv(p, closed) && ProgramEnabled(p, step)
    ensures closed && FlagIsDown(ProgramApply(p, step, reply))
  {
  }

  lemma NoMorePops(p: Program, step: Step, closed: bool)
    requires FlagIsDown(p) && LifetimesInv(p, closed) && ProgramEnabled(p, step)
    ensures var x := QueuePart(p, step); x.Some? ==> !(x.value.t == WRITER && x.value.a.Call?)
  {
  }

  // Once the flag is down, no step changes what will be left.
  lemma StepKeepsLeft(s: State, step: Step)
    requires Inv(s) && FlagIsDown(s.p) && Enabled(s, step)
    ensures var s' := Apply(s, step);
            |s'.q.pcs| == 4 && s'.q.ring.WellFormed() && FlagIsDown(s'.p) && Left(s'.q) == Left(s.q)
  {
    FlagStaysDown(s.p, step, PopReply(s.q.pcs[WRITER]), s.q.ring.closed);
    var x := QueuePart(s.p, step);
    if x.Some? {
      NoMorePops(s.p, step, s.q.ring.closed);
      QueueKeepsLeft(s.q, x.value.t, x.value.a);
    }
  }

  lemma {:induction false} RunKeepsLeft(s: State, run: seq<Step>)
    requires Inv(s) && FlagIsDown(s.p) && ValidRun(s, run)
    ensures Inv(After(s, run)) && FlagIsDown(After(s, run).p) && Left(After(s, run).q) == Left(s.q)
    decreases |run|
  {
    if run != [] {
      StepKeepsInv(s, run[0]);
      StepKeepsLeft(s, run[0]);
      RunKeepsLeft(Apply(s, run[0]), run[1..]);
    }
  }

  lemma Balance(s: State)
    requires Inv(s) && InHand(s) == []
    ensures Q.Events(s.q.pushed) == Taken(s.p.handled) + s.q.ring.Contents()
  {
    assert Taken(s.p.handled) + [] == Taken(s.p.handled);
  }

  lemma AtExit(s: State)
    requires CallsInv(s) && LifetimesInv(s.p, s.q.ring.closed) && s.q.ring.WellFormed()
    requires FlagIsDown(s.p) && s.p.main.Exited?
    ensures InHand(s) == [] && Left(s.q) == s.q.ring.Contents()
  {
  }

  // From the fall of the flag on it is settled what will be left: the contents of the queue, less
  // its oldest event if the writer is inside a pop and has not reached the ring yet. However the
  // rest of the run goes, the exit finds just these events in the queue, and every other accepted
  // event has been dealt with.
  lemma WhatIsLeft(s: State, run: seq<Step>)
    requires Inv(s) && FlagIsDown(s.p) && ValidRun(s, run) && After(s, run).p.main.Exited?
    ensures var s' := After(s, run);
            && s'.q.ring.WellFormed() && s'.q.ring.Contents() == Left(s.q)
            && Q.Events(s'.q.pushed) == Taken(s'.p.handled) + Left(s.q)
  {
    RunKeepsLeft(s, run);
    AtExit(After(s, run));
    Balance(After(s, run));
  }

  // So nothing is lost if and only if the queue holds no more than that when the flag falls: it is
  // empty, or holds one event that the writer is about to take.
  lemma NothingIsLeftIff(s: State, run: seq<Step>)
    requires Inv(s) && FlagIsDown(s.p) && ValidRun(s, run) && After(s, run).p.main.Exited?
    ensures Q.Events(After(s, run).q.pushed) == Taken(After(s, run).p.handled)
       <==> s.q.ring.size == 0 || (s.q.ring.size == 1 && BeforeTheRing(s.q.pcs[WRITER]))
  {
    WhatIsLeft(s, run);
    var s' := After(s, run);
    assert |Taken(s'.p.handled) + Left(s.q)| == |Taken(s'.p.handled)| + |Left(s.q)|;
  }

  lemma PrefixBehind(s: State, run: seq<Step>, k: nat)
    requires run != [] && Enabled(s, run[0]) && k < |run| && ValidRun(Apply(s, run[0]), run[1..][..k])
    ensures ValidRun(s, run[..k + 1]) && After(s, run[..k + 1]) == After(Apply(s, run[0]), run[1..][..k])
  {
    assert run[..k + 1][1..] == run[1..][..k];
  }

  lemma OnlyMainMoves(p: Program, step: Step, reply: Option<Event>, closed: bool)
    requires 1 <= Rank(p.main) <= 10 && ProgramEnabled(p, step) && LifetimesInv(p, closed)
    ensures var p' := ProgramApply(p, step, reply);
            if p.main.StopWriter? && step.MainStep? then p'.main.JoinWriter? && FlagIsDown(p')
            else 1 <= Rank(p'.main) <= 10
  {
  }

  // Every run that ends passes the fall of the flag.
  lemma {:induction false} FlagFalls(s: State, run: seq<Step>) returns (k: nat)
    requires Inv(s) && 1 <= Rank(s.p.main) <= 10 && ValidRun(s, run) && After(s, run).p.main.Exited?
    ensures k < |run| && ValidRun(s, run[..k]) && ValidRun(s, run[..k + 1])
    ensures After(s, run[..k]).p.main.StopWriter? && run[k].MainStep?
    ensures var s1 := After(s, run[..k + 1]);
            && Inv(s1) && FlagIsDown(s1.p) && s1.p.main.JoinWriter?
            && ValidRun(s1, run[k + 1..]) && After(s1, run[k + 1..]) == After(s, run)
    decreases |run|
  {
    assert run != [];
    var next := Apply(s, run[0]);
    StepKeepsInv(s, run[0]);
    OnlyMainMoves(s.p, run[0], PopReply(s.q.pcs[WRITER]), s.q.ring.closed);
    if s.p.main.StopWriter? && run[0].MainStep? {
      k := 0;
      assert run[..1][1..] == [];
    } else {
      k := FlagFalls(next, run[1..]);
      PrefixBehind(s, run, k);
      PrefixBehind(s, run, k + 1);
      assert run[k + 2..] == run[1..][k + 1..];
      k := k + 1;
    }
  }

  /// The same from the very start

  // The writer could not be started, and main gives up at once.
  ghost predicate GivenUp(s: State) {
    && (s.p.main.Destroy? || s.p.main.Exited?)
    && s.p.websocket.NotStarted? && s.p.poller.NotStarted? && s.p.writer.WNotStarted?
    && |s.q.pcs| == 4 && (forall u | 0 <= u < 4 :: s.q.pcs[u].Idle?)
    && s.q.pushed == [] && s.p.handled == []
  }

  lemma GivenUpLasts(s: State, step: Step)
    requires GivenUp(s) && Enabled(s, step)
    ensures GivenUp(Apply(s, step))
  {
    assert step.MainStep?;
  }

  lemma {:induction false} GivenUpRuns(s: State, run: seq<Step>)
    requires GivenUp(s) && ValidRun(s, run)
    ensures GivenUp(After(s, run))
    decreases |run|
  {
    if run != [] {
      GivenUpLasts(s, run[0]);
      GivenUpRuns(Apply(s, run[0]), run[1..]);
    }
  }

  lemma FirstStep(capacity: nat, useWebsocket: bool, usePoller: bool, tables: Tables, step: Step)
    requires 0 < capacity && Enabled(Init(capacity, useWebsocket, usePoller, tables), step)
    ensures step.MainStep?
    ensures var s := Apply(Init(capacity, useWebsocket, usePoller, tables), step);
            if step.ok then s.p.main.StartWebsocket? else GivenUp(s)
  {
  }

  // What is lost in a run to the exit is decided right after step k.
  ghost predicate LostAfter(s: State, run: seq<Step>, k: nat) {
    && k < |run| && ValidRun(s, run) && ValidRun(s, run[..k]) && ValidRun(s, run[..k + 1])
    && After(s, run[..k]).p.main.StopWriter? && run[k].MainStep?
    && Inv(After(s, run[..k + 1]))
    && var flagFallen, end := After(s, run[..k + 1]), After(s, run);
       && Q.Events(end.q.pushed) == Taken(end.p.handled) + Left(flagFallen.q)
       && (Q.Events(end.q.pushed) == Taken(end.p.handled) <==>
           flagFallen.q.ring.size == 0 || (flagFallen.q.ring.size == 1 && BeforeTheRing(flagFallen.q.pcs[WRITER])))
  }

  // Over whole runs: whatever happens before and after, what is lost is decided by the queue and
  // the writer's position right after main lowers the writer's flag.
  lemma LostAtExit(s: State, run: seq<Step>) returns (k: nat)
    requires Inv(s) && 1 <= Rank(s.p.main) <= 10 && ValidRun(s, run) && After(s, run).p.main.Exited?
    ensures LostAfter(s, run, k)
  {
    k := FlagFalls(s, run);
    WhatIsLeft(After(s, run[..k + 1]), run[k + 1..]);
    NothingIsLeftIff(After(s, run[..k + 1]), run[k + 1..]);
  }

  lemma LostOneLater(s: State, run: seq<Step>, k: nat)
    requires run != [] && Enabled(s, run[0]) && LostAfter(Apply(s, run[0]), run[1..], k)
    ensures LostAfter(s, run, k + 1)
  {
    PrefixBehind(s, run, k);
    PrefixBehind(s, run, k + 1);
  }

  lemma StartedIsFinished(s: State, run: seq<Step>)
    requires Inv(s) && 1 <= Rank(s.p.main) <= 10 && ValidRun(s, run) && After(s, run).p.main.Exited?
    ensures !After(s, run).p.writer.WNotStarted?
  {
    var k := FlagFalls(s, run);
    RunKeepsLeft(After(s, run[..k + 1]), run[k + 1..]);
  }

  // Every run of the program from its start to its exit: either the writer could not be started,
  // and nothing was ever pushed, or main has lowered the writer's flag at some step, and the state
  // right after it decides what is lost.
  lemma LostFromStart(capacity: nat, useWebsocket: bool, usePoller: bool, tables: Tables, run: seq<Step>)
    requires 0 < capacity && ValidRun(Init(capacity, useWebsocket, usePoller, tables), run)
    requires After(Init(capacity, useWebsocket, usePoller, tables), run).p.main.Exited?
    ensures var s := Init(capacity, useWebsocket, usePoller, tables);
            if After(s, run).p.writer.WNotStarted? then After(s, run).q.pushed == [] && After(s, run).p.handled == []
            else exists k :: LostAfter(s, run, k)
  {
    var s := Init(capacity, useWebsocket, usePoller, tables);
    InitInv(capacity, useWebsocket, usePoller, tables);
    assert run != [];
    FirstStep(capacity, useWebsocket, usePoller, tables, run[0]);
    var next := Apply(s, run[0]);
    if next.p.main.StartWebsocket? {
      StepKeepsInv(s, run[0]);
      var k := LostAtExit(next, run[1..]);
      LostOneLater(s, run, k);
      StartedIsFinished(next, run[1..]);
    } else {
      GivenUpRuns(next, run[1..]);
    }
  }

  /// A run that loses an event

  lemma {:induction false} RunAppend(s: State, run: seq<Step>, step: Step)
    requires ValidRun(s, run) && Enabled(After(s, run), step)
    ensures ValidRun(s, run + [step]) && After(s, run + [step]) == Apply(After(s, run), step)
    decreases |run|
  {
    if run != [] {
      RunAppend(Apply(s, run[0]), run[1..], step);
      assert (run + [step])[1..] == run[1..] + [step];
    } else {
      assert [step][1..] == [];
    }
  }

  lemma ReachableStep(s: State, step: Step) returns (s': State)
    requires Reachable(s, 1) && Enabled(s, step)
    ensures s' == Apply(s, step) && Reachable(s', 1)
  {
    var w, h, tables, run :|
      ValidRun(Init(1, w, h, tables), run) && s == After(Init(1, w, h, tables), run);
    RunAppend(Init(1, w, h, tables), run, step);
    s' := Apply(s, step);
  }

  const ALL_IDLE: seq<Q.Pc> := [Q.Idle, Q.Idle, Q.Idle, Q.Idle]

  // A state of the run with all threads outside the queue, the writer still connecting.
  predicate Calm(s: State, ring: Ring, main: MainPc, exit: bool, websocket: ProducerPc, tables: Tables) {
    && s.q.ring == ring && s.q.owner.None? && s.q.pcs == ALL_IDLE
    && s.p == Program(main, true, false, exit, websocket, NotStarted, !websocket.Finished?, false, Connecting, true, [], tables)
  }

  lemma StartUp(tables: Tables) returns (s: State)
    ensures Reachable(s, 1) && Calm(s, EmptyRing(1), MainPc.Waiting, false, LoopHead, tables)
  {
    s := Init(1, true, false, tables);
    assert ValidRun(s, []) && After(s, []) == s;
    s := ReachableStep(s, MainStep(true));
    s := ReachableStep(s, MainStep(true));
    s := ReachableStep(s, MainStep(true));
    s := ReachableStep(s, ProducerStep(true, true, []));
    assert s.q.pcs == ALL_IDLE;
  }

  lemma UnlockAlone(s: State, t: nat, op: Q.Op, reply: Q.Reply) returns (s': State)
    requires Reachable(s, 1) && t < 4 && s.q.ring.WellFormed() && s.q.pcs == ALL_IDLE[t := Q.Leaving(op, reply)]
    ensures Reachable(s', 1) && s'.p == s.p && s'.q.ring == s.q.ring && s'.q.owner.None?
    ensures s'.q.pcs == ALL_IDLE[t := Q.Returned(op, reply)]
  {
    s' := ReachableStep(s, QueueStep(t, Q.Unlock));
  }

  // A push into the empty queue that nobody disturbs.
  lemma StoreAlone(s: State, t: nat, op: Q.Op) returns (s': State)
    requires Reachable(s, 1) && t < 4 && s.q.owner.None? && s.q.pcs == ALL_IDLE[t := Q.Entering(op)]
    requires s.q.ring.WellFormed() && !s.q.ring.closed && op.Push? && s.q.ring.size == 0
    ensures Reachable(s', 1) && s'.p == s.p && s'.q.ring == s.q.ring.Put(op.e)
    ensures s'.q.pcs == ALL_IDLE[t := Q.Signalling(op, Q.Accepted)]
  {
    s' := ReachableStep(s, QueueStep(t, Q.Acquire));
    assert s'.q.pcs == ALL_IDLE[t := Q.Testing(op)];
    s' := ReachableStep(s', QueueStep(t, Q.Update));
    assert s'.q.pcs == ALL_IDLE[t := Q.Signalling(op, Q.Accepted)];
  }

  lemma PushAlone(s: State, t: nat, op: Q.Op) returns (s': State)
    requires Reachable(s, 1) && t < 4 && s.q.owner.None? && s.q.pcs == ALL_IDLE[t := Q.Entering(op)]
    requires s.q.ring.WellFormed() && !s.q.ring.closed && op.Push? && s.q.ring.size == 0
    ensures Reachable(s', 1) && s'.p == s.p
    ensures s'.q.ring == s.q.ring.Put(op.e) && s'.q.owner.None? && s'.q.pcs == ALL_IDLE[t := Q.Returned(op, Q.Accepted)]
  {
    PutAppends(s.q.ring, op.e);
    s' := StoreAlone(s, t, op);
    s' := ReachableStep(s', QueueStep(t, Q.Notify(None)));
    assert s'.q.pcs == ALL_IDLE[t := Q.Leaving(op, Q.Accepted)];
    s' := UnlockAlone(s', t, op, Q.Accepted);
  }

  function Started(websocket: ProducerPc, tables: Tables): Program {
    Program(MainPc.Waiting, true, false, false, websocket, NotStarted, true, false, Connecting, true, [], tables)
  }

  lemma EnterPush(tables: Tables, e: Event) returns (s: State)
    ensures Reachable(s, 1) && s.q.ring == EmptyRing(1) && s.q.owner.None?
    ensures s.q.pcs == ALL_IDLE[WEBSOCKET := Q.Entering(Q.Push(e))]
    ensures s.p == Started(Pushing([]), tables)
  {
    s := StartUp(tables);
    s := ReachableStep(s, ProducerStep(true, true, [e]));
    s := ReachableStep(s, ProducerStep(true, true, []));
    assert [e][1..] == [];
    assert s.q.pcs == ALL_IDLE[WEBSOCKET := Q.Entering(Q.Push(e))];
  }

  lemma OnePush(tables: Tables, e: Event) returns (s: State)
    ensures Reachable(s, 1) && Calm(s, EmptyRing(1).Put(e), MainPc.Waiting, false, LoopHead, tables)
  {
    s := EnterPush(tables, e);
    EmptyRingContents(1);
    s := PushAlone(s, WEBSOCKET, Q.Push(e));
    PutAppends(EmptyRing(1), e);
    s := ReachableStep(s, ProducerStep(true, true, []));
    assert s.q.pcs == ALL_IDLE;
    s := ReachableStep(s, ProducerStep(true, true, []));
  }

  lemma StopWebsocketClient(tables: Tables, e: Event) returns (s: State)
    ensures Reachable(s, 1) && Calm(s, EmptyRing(1).Put(e), JoinWebsocket, true, Finished, tables)
  {
    s := OnePush(tables, e);
    s := ReachableStep(s, RaiseExit);
    s := ReachableStep(s, MainStep(true));
    s := ReachableStep(s, MainStep(true));
    s := ReachableStep(s, ProducerStep(true, true, []));
  }

  lemma StopProducer(tables: Tables, e: Event) returns (s: State)
    ensures Reachable(s, 1) && Calm(s, EmptyRing(1).Put(e), CallClose, true, Finished, tables)
  {
    s := StopWebsocketClient(tables, e);
    s := ReachableStep(s, MainStep(true));
    s := ReachableStep(s, MainStep(true));
  }

  function InTheClose(tables: Tables): Program {
    Program(InClose, true, false, true, Finished, NotStarted, false, false, Connecting, true, [], tables)
  }

  lemma EnterClose(tables: Tables, e: Event) returns (s: State)
    ensures Reachable(s, 1) && |s.q.pcs| == 4 && s.q.ring == EmptyRing(1).Put(e).(closed := true)
    ensures s.q.owner.Some? && s.q.pcs == ALL_IDLE[MAIN := Q.WakingPoppers]
    ensures s.p == InTheClose(tables)
  {
    PutAppends(EmptyRing(1), e);
    s := StopProducer(tables, e);
    s := ReachableStep(s, MainStep(true));
    assert s.q.pcs == ALL_IDLE[MAIN := Q.Entering(Q.Close)];
    s := ReachableStep(s, QueueStep(MAIN, Q.Acquire));
    assert s.q.pcs == ALL_IDLE[MAIN := Q.Testing(Q.Close)];
    s := ReachableStep(s, QueueStep(MAIN, Q.Update));
    assert s.q.pcs == ALL_IDLE[MAIN := Q.WakingPoppers];
  }

  lemma LeaveClose(tables: Tables, e: Event) returns (s: State)
    ensures Reachable(s, 1) && s.q.ring == EmptyRing(1).Put(e).(closed := true)
    ensures s.q.pcs == ALL_IDLE[MAIN := Q.Returned(Q.Close, Q.Closed)]
    ensures s.p == InTheClose(tables)
  {
    PutAppends(EmptyRing(1), e);
    s := EnterClose(tables, e);
    s := ReachableStep(s, QueueStep(MAIN, Q.Notify(None)));
    assert s.q.pcs == ALL_IDLE[MAIN := Q.WakingPushers];
    s := ReachableStep(s, QueueStep(MAIN, Q.Notify(None)));
    assert s.q.pcs == ALL_IDLE[MAIN := Q.Leaving(Q.Close, Q.Closed)];
    s := UnlockAlone(s, MAIN, Q.Close, Q.Closed);
  }

  lemma CloseBeforeConnecting(tables: Tables, e: Event) returns (s: State)
    ensures Reachable(s, 1)
    ensures s.q.ring == EmptyRing(1).Put(e).(closed := true) && s.q.pcs == ALL_IDLE
    ensures s.p.main.JoinWriter? && s.p.exitRequested && s.p.writer.Connecting?
  {
    PutAppends(EmptyRing(1), e);
    s := LeaveClose(tables, e);
    s := ReachableStep(s, MainStep(true));
    assert s.q.pcs == ALL_IDLE;
    s := ReachableStep(s, MainStep(true));
  }

  lemma {:induction false} RunsCompose(s: State, a: seq<Step>, b: seq<Step>)
    requires ValidRun(s, a) && ValidRun(After(s, a), b)
    ensures ValidRun(s, a + b) && After(s, a + b) == After(After(s, a), b)
    decreases |a|
  {
    if a != [] {
      RunsCompose(Apply(s, a[0]), a[1..], b);
      assert (a + b)[1..] == a[1..] + b;
    } else {
      assert a + b == b;
    }
  }

  lemma ReachableRun(s: State, run: seq<Step>)
    requires Reachable(s, 1) && ValidRun(s, run)
    ensures Reachable(After(s, run), 1)
  {
    var w, h, t, before :| ValidRun(Init(1, w, h, t), before) && s == After(Init(1, w, h, t), before);
    RunsCompose(Init(1, w, h, t), before, run);
  }

  lemma LeftIsAll(q: Q.State, e: Event)
    requires q.ring == EmptyRing(1).Put(e).(closed := true) && q.pcs == ALL_IDLE
    ensures q.ring.WellFormed() && Left(q) == [e]
  {
    PutAppends(EmptyRing(1), e);
    EmptyRingContents(1);
  }

  // The loss is real: with a queue of one cell, an event that has been accepted while the writer
  // was still connecting is in the queue for good when main has left, whatever its kind.
  lemma AnEventCanBeLost(tables: Tables, e: Event) returns (s: State)
    ensures Reachable(s, 1) && s.p.main.Exited? && s.q.ring.WellFormed() && s.q.ring.Contents() == [e]
    ensures Q.Events(s.q.pushed) == Taken(s.p.handled) + [e]
  {
    var before := CloseBeforeConnecting(tables, e);
    ReachableInv(before, 1);
    var rest := Shutdown.ExitIsReached(before);
    ReachableRun(before, rest);
    s := After(before, rest);
    WhatIsLeft(before, rest);
    LeftIsAll(before.q, e);
  }
}
