/** The event queue as any number of threads use it: a mutex, two condition variables, spurious
    wakeups. One transition is one step of one thread between two points where another thread
    could run. */
module QueueMonitor {
  import opened EventTypes
  import opened RingBuffer

  datatype Op = Push(e: Event) | Pop | Close

  // What a call returns: 0 or -1 of a push, 0 with an event or -1 of a pop, nothing of a close.
  datatype Reply = Accepted | Rejected | Got(e: Event) | Ended | Closed

  datatype Pc =
    | Idle                            // not inside a queue function
    | Entering(op: Op)                // called, waiting for the mutex
    | Testing(op: Op)                 // has the mutex, about to evaluate the loop test
    | Asleep(op: Op)                  // in the wait set of its condition variable
    | Woken(op: Op)                   // taken out of the wait set, waiting for the mutex
    | Signalling(op: Op, reply: Reply) // has the mutex, ring updated, about to signal
    | WakingPoppers                   // closing: about to broadcast cond_pop
    | WakingPushers                   // closing: about to broadcast cond_push
    | Leaving(op: Op, reply: Reply)   // has the mutex, about to unlock it
    | Returned(op: Op, reply: Reply)

  predicate HasMutex(pc: Pc) {
    pc.Testing? || pc.Signalling? || pc.WakingPoppers? || pc.WakingPushers? || pc.Leaving?
  }

  datatype Sent = Sent(thread: nat, e: Event)
  datatype Finished = Finished(thread: nat, op: Op, reply: Reply)

  // `pushed`, `popped` and `finished` record what has happened; no step reads them.
  datatype State = State(
    ring: Ring,
    owner: Option<nat>,
    pcs: seq<Pc>,
    pushed: seq<Sent>,
    popped: seq<Event>,
    finished: seq<Finished>)

  datatype Action =
    | Call(op: Op)
    | Acquire
    | Sleep
    | Update
    | Notify(wake: Option<nat>)
    | Unlock
    | Return
    | Spurious

  function Init(threads: nat, capacity: nat): State {
    State(EmptyRing(capacity), None, seq(threads, _ => Idle), [], [], [])
  }

  // The condition of the `while` around pthread_cond_wait.
  predicate MustWait(r: Ring, op: Op) {
    !r.closed && match op
                 case Push(_) => r.size == r.Capacity()
                 case Pop => r.size == 0
                 case Close => false
  }

  predicate SleepingPopper(pc: Pc) { pc == Asleep(Pop) }
  predicate SleepingPusher(pc: Pc) { pc.Asleep? && pc.op.Push? }

  // The waiters on the condition variable that a finished push or pop signals.
  predicate Signalled(op: Op, pc: Pc) {
    match op
    case Push(_) => SleepingPopper(pc)
    case Pop => SleepingPusher(pc)
    case Close => false
  }

  ghost predicate Enabled(s: State, t: nat, a: Action) {
    t < |s.pcs| && s.ring.WellFormed() &&
    var pc := s.pcs[t];
    match a
    case Call(op) => pc.Idle?
    case Acquire => s.owner.None? && (pc.Entering? || pc.Woken?)
    case Sleep => pc.Testing? && MustWait(s.ring, pc.op)
    case Update => pc.Testing? && !MustWait(s.ring, pc.op)
    case Notify(None) =>
      || pc.WakingPoppers?
      || pc.WakingPushers?
      || (pc.Signalling? && forall u | 0 <= u < |s.pcs| :: !Signalled(pc.op, s.pcs[u]))
    case Notify(Some(u)) => pc.Signalling? && u < |s.pcs| && Signalled(pc.op, s.pcs[u])
    case Unlock => pc.Leaving?
    case Return => pc.Returned?
    case Spurious => pc.Asleep?
  }

  function At(s: State, t: nat, pc: Pc): State
    requires t < |s.pcs|
  {
    s.(pcs := s.pcs[t := pc])
  }

  function WakePoppers(pcs: seq<Pc>): (r: seq<Pc>)
    ensures |r| == |pcs|
    ensures forall u | 0 <= u < |pcs| :: r[u] == if SleepingPopper(pcs[u]) then Woken(Pop) else pcs[u]
  {
    seq(|pcs|, u requires 0 <= u < |pcs| => if SleepingPopper(pcs[u]) then Woken(Pop) else pcs[u])
  }

  function WakePushers(pcs: seq<Pc>): (r: seq<Pc>)
    ensures |r| == |pcs|
    ensures forall u | 0 <= u < |pcs| :: r[u] == if SleepingPusher(pcs[u]) then Woken(pcs[u].op) else pcs[u]
  {
    seq(|pcs|, u requires 0 <= u < |pcs| => if SleepingPusher(pcs[u]) then Woken(pcs[u].op) else pcs[u])
  }

  // What a thread does with the mutex once its loop test has let it through.
  ghost function Updated(s: State, t: nat, op: Op): State
    requires t < |s.pcs| && s.ring.WellFormed() && !MustWait(s.ring, op)
  {
    match op
    case Push(e) =>
      if s.ring.closed then At(s, t, Leaving(op, Rejected))
      else At(s, t, Signalling(op, Accepted)).(ring := s.ring.Put(e), pushed := s.pushed + [Sent(t, e)])
    case Pop =>
      if s.ring.size == 0 && s.ring.closed then At(s, t, Leaving(op, Ended))
      else
        var e := s.ring.Oldest();
        At(s, t, Signalling(op, Got(e))).(ring := s.ring.Drop(), popped := s.popped + [e])
    case Close =>
      At(s, t, WakingPoppers).(ring := s.ring.(closed := true))
  }

  ghost function Apply(s: State, t: nat, a: Action): State
    requires Enabled(s, t, a)
  {
    var pc := s.pcs[t];
    match a
    case Call(op) => At(s, t, Entering(op))
    case Acquire => At(s, t, Testing(pc.op)).(owner := Some(t))
    case Sleep => At(s, t, Asleep(pc.op)).(owner := None)
    case Update => Updated(s, t, pc.op)
    case Notify(wake) =>
      if pc.WakingPoppers? then s.(pcs := WakePoppers(s.pcs[t := WakingPushers]))
      else if pc.WakingPushers? then s.(pcs := WakePushers(s.pcs[t := Leaving(Close, Closed)]))
      else
        var after := At(s, t, Leaving(pc.op, pc.reply));
        if wake.None? then after else At(after, wake.value, Woken(s.pcs[wake.value].op))
    case Unlock => At(s, t, Returned(pc.op, pc.reply)).(owner := None)
    case Return => At(s, t, Idle).(finished := s.finished + [Finished(t, pc.op, pc.reply)])
    case Spurious => At(s, t, Woken(pc.op))
  }

  datatype Step = Step(t: nat, a: Action)

  ghost predicate ValidRun(s: State, run: seq<Step>)
    decreases |run|
  {
    run == [] || (Enabled(s, run[0].t, run[0].a) && ValidRun(Apply(s, run[0].t, run[0].a), run[1..]))
  }

  ghost function After(s: State, run: seq<Step>): State
    requires ValidRun(s, run)
    decreases |run|
  {
    if run == [] then s else After(Apply(s, run[0].t, run[0].a), run[1..])
  }

  /// Counting threads

  ghost function Count(pcs: seq<Pc>, p: Pc -> bool): nat {
    if pcs == [] then 0 else (if p(pcs[0]) then 1 else 0) + Count(pcs[1..], p)
  }

  lemma {:induction false} CountUpdate(pcs: seq<Pc>, t: nat, pc: Pc, p: Pc -> bool)
    requires t < |pcs|
    ensures Count(pcs[t := pc], p) == Count(pcs, p) - (if p(pcs[t]) then 1 else 0) + (if p(pc) then 1 else 0)
  {
    if t == 0 {
      assert pcs[t := pc][1..] == pcs[1..];
    } else {
      CountUpdate(pcs[1..], t - 1, pc, p);
      assert pcs[t := pc][1..] == pcs[1..][t - 1 := pc];
    }
  }

  lemma {:induction false} CountNone(pcs: seq<Pc>, p: Pc -> bool)
    requires forall u | 0 <= u < |pcs| :: !p(pcs[u])
    ensures Count(pcs, p) == 0
  {
    if pcs != [] {
      CountNone(pcs[1..], p);
    }
  }

  predicate WokenPopper(pc: Pc) { pc == Woken(Pop) }
  predicate WokenPusher(pc: Pc) { pc.Woken? && pc.op.Push? }

  // Poppers on their way to look at the ring, and pushes whose signal is still to come: between
  // them they account for every queued event that a sleeping popper could have been told of.
  predicate PopperComing(pc: Pc) { pc == Woken(Pop) || pc == Testing(Pop) }
  predicate PopperSignalComing(pc: Pc) { pc.Signalling? && pc.op.Push? }
  predicate PusherComing(pc: Pc) { (pc.Woken? || pc.Testing?) && pc.op.Push? }
  predicate PusherSignalComing(pc: Pc) { pc.Signalling? && pc.op.Pop? }

  ghost predicate AnySleepingPopper(s: State) { exists u | 0 <= u < |s.pcs| :: SleepingPopper(s.pcs[u]) }
  ghost predicate AnySleepingPusher(s: State) { exists u | 0 <= u < |s.pcs| :: SleepingPusher(s.pcs[u]) }

  /// The invariant

  ghost predicate MutexInv(s: State) {
    && (s.owner.Some? ==> s.owner.value < |s.pcs|)
    && forall u | 0 <= u < |s.pcs| :: HasMutex(s.pcs[u]) <==> s.owner == Some(u)
  }

  ghost predicate PopSideInv(s: State) {
    AnySleepingPopper(s) && !s.ring.closed ==>
      s.ring.size <= Count(s.pcs, PopperComing) + Count(s.pcs, PopperSignalComing)
  }

  ghost predicate PushSideInv(s: State) {
    AnySleepingPusher(s) && !s.ring.closed ==>
      s.ring.Capacity() - s.ring.size <= Count(s.pcs, PusherComing) + Count(s.pcs, PusherSignalComing)
  }

  // After the close, a sleeper can only be one that the closing thread is about to wake.
  ghost predicate CloseInv(s: State) {
    s.ring.closed ==>
      forall u | 0 <= u < |s.pcs| ::
        && (SleepingPopper(s.pcs[u]) ==> exists c | 0 <= c < |s.pcs| :: s.pcs[c].WakingPoppers?)
        && (SleepingPusher(s.pcs[u]) ==>
              exists c | 0 <= c < |s.pcs| :: s.pcs[c].WakingPoppers? || s.pcs[c].WakingPushers?)
  }

  predicate ReplyInv(r: Ring, op: Op, reply: Reply) {
    match op
    case Push(_) => reply.Accepted? || (reply.Rejected? && r.closed)
    case Pop => reply.Got? || (reply.Ended? && r.closed && r.size == 0)
    case Close => reply.Closed? && r.closed
  }

  // Each thread's pending reply agrees with its operation and with the ring.
  predicate PcInv(r: Ring, pc: Pc) {
    match pc
    case Asleep(op) => !op.Close?
    case Signalling(op, reply) => (op.Push? && reply.Accepted?) || (op.Pop? && reply.Got?)
    case WakingPoppers => r.closed
    case WakingPushers => r.closed
    case Leaving(op, reply) => ReplyInv(r, op, reply)
    case Returned(op, reply) => ReplyInv(r, op, reply)
    case _ => true
  }

  function Events(sent: seq<Sent>): seq<Event> {
    EventsIn(sent, (x: Sent) => x.e)
  }

  // The structural part of the invariant.
  ghost predicate PcsInv(s: State) {
    && (forall u | 0 <= u < |s.pcs| :: PcInv(s.ring, s.pcs[u]))
    && (forall i | 0 <= i < |s.finished| :: ReplyInv(s.ring, s.finished[i].op, s.finished[i].reply))
  }

  ghost predicate ContentsInv(s: State)
    requires s.ring.WellFormed()
  {
    Events(s.pushed) == s.popped + s.ring.Contents()
  }

  ghost predicate Inv(s: State) {
    && s.ring.WellFormed()
    && MutexInv(s)
    && PcsInv(s)
    && CloseInv(s)
    && PopSideInv(s)
    && PushSideInv(s)
    && ContentsInv(s)
  }

  lemma InitInv(threads: nat, capacity: nat)
    requires 0 < capacity
    ensures Inv(Init(threads, capacity))
  {
    EmptyRingContents(capacity);
  }

  lemma StepKeepsRing(s: State, t: nat, a: Action)
    requires Enabled(s, t, a)
    ensures var s' := Apply(s, t, a);
            && s'.ring.WellFormed() && s'.ring.Capacity() == s.ring.Capacity() && |s'.pcs| == |s.pcs|
            && (s.ring.closed ==> s'.ring.closed && s'.ring.size <= s.ring.size)
  {
    var op := if a.Update? then s.pcs[t].op else Close;
    if op.Push? && !s.ring.closed {
      PutAppends(s.ring, op.e);
    } else if op.Pop? && s.ring.size != 0 {
      DropRemovesOldest(s.ring);
    }
  }

  lemma StepKeepsMutex(s: State, t: nat, a: Action)
    requires MutexInv(s) && Enabled(s, t, a)
    ensures MutexInv(Apply(s, t, a))
  {
  }

  lemma StepKeepsPcs(s: State, t: nat, a: Action)
    requires PcsInv(s) && Enabled(s, t, a)
    ensures PcsInv(Apply(s, t, a))
  {
    StepKeepsRing(s, t, a);
    var s' := Apply(s, t, a);
    assert PcInv(s.ring, s.pcs[t]);
    forall u | 0 <= u < |s'.pcs|
      ensures PcInv(s'.ring, s'.pcs[u])
    {
      assert PcInv(s.ring, s.pcs[u]);
    }
  }

  lemma StepKeepsCloseInv(s: State, t: nat, a: Action)
    requires CloseInv(s) && Enabled(s, t, a) && PcInv(s.ring, s.pcs[t])
    ensures CloseInv(Apply(s, t, a))
  {
    var s' := Apply(s, t, a);
    if s'.ring.closed {
      forall u | 0 <= u < |s'.pcs|
        ensures SleepingPopper(s'.pcs[u]) ==> exists c | 0 <= c < |s'.pcs| :: s'.pcs[c].WakingPoppers?
        ensures SleepingPusher(s'.pcs[u]) ==>
                  exists c | 0 <= c < |s'.pcs| :: s'.pcs[c].WakingPoppers? || s'.pcs[c].WakingPushers?
      {
        if !SleepingPopper(s'.pcs[u]) && !SleepingPusher(s'.pcs[u]) {
        } else if !(a.Update? && s.pcs[t].op.Close?) {
          assert s.pcs[u] == s'.pcs[u] && s.ring.closed;
          var c :| 0 <= c < |s.pcs| && (s.pcs[c].WakingPoppers? || (SleepingPusher(s.pcs[u]) && s.pcs[c].WakingPushers?));
          if c == t {
            assert a.Notify?;
            assert s.pcs[c].WakingPoppers? ==> s'.pcs[c].WakingPushers?;
          } else {
            assert s'.pcs[c] == s.pcs[c];
          }
        } else {
          assert s'.pcs[t].WakingPoppers?;
        }
      }
    }
  }

  lemma StepKeepsContents(s: State, t: nat, a: Action)
    requires Enabled(s, t, a) && ContentsInv(s)
    ensures Apply(s, t, a).ring.WellFormed() && ContentsInv(Apply(s, t, a))
  {
    var pc := s.pcs[t];
    var s' := Apply(s, t, a);
    if a.Update? && pc.op.Push? && !s.ring.closed {
      PutAppends(s.ring, pc.op.e);
      assert Events(s'.pushed) == Events(s.pushed) + [pc.op.e];
    } else if a.Update? && pc.op.Pop? && s.ring.size != 0 {
      DropRemovesOldest(s.ring);
    } else if a.Update? && pc.op.Close? {
      CloseKeepsContents(s.ring);
    }
  }

  // How one step of thread t changes a count, when it is not a broadcast.
  lemma StepCount(s: State, t: nat, a: Action, p: Pc -> bool)
    requires Enabled(s, t, a) && !s.pcs[t].WakingPoppers? && !s.pcs[t].WakingPushers?
    ensures var s' := Apply(s, t, a);
            && (a.Notify? && a.wake.Some? ==>
                  && a.wake.value != t
                  && Count(s'.pcs, p) == Count(s.pcs, p)
                    - (if p(s.pcs[t]) then 1 else 0) + (if p(s'.pcs[t]) then 1 else 0)
                    - (if p(s.pcs[a.wake.value]) then 1 else 0) + (if p(s'.pcs[a.wake.value]) then 1 else 0))
            && (!(a.Notify? && a.wake.Some?) ==>
                  Count(s'.pcs, p) == Count(s.pcs, p) - (if p(s.pcs[t]) then 1 else 0) + (if p(s'.pcs[t]) then 1 else 0))
  {
    var s' := Apply(s, t, a);
    CountUpdate(s.pcs, t, s'.pcs[t], p);
    if a.Notify? && a.wake.Some? {
      var u := a.wake.value;
      CountUpdate(s.pcs[t := s'.pcs[t]], u, s'.pcs[u], p);
      assert s'.pcs == s.pcs[t := s'.pcs[t]][u := s'.pcs[u]];
    } else {
      assert s'.pcs == s.pcs[t := s'.pcs[t]];
    }
  }

  lemma StepKeepsPopSide(s: State, t: nat, a: Action)
    requires PopSideInv(s) && Enabled(s, t, a) && PcInv(s.ring, s.pcs[t])
    ensures PopSideInv(Apply(s, t, a))
  {
    var s' := Apply(s, t, a);
    if AnySleepingPopper(s') && !s'.ring.closed && !(a.Sleep? && s.pcs[t].op.Pop?) {
      var u :| 0 <= u < |s'.pcs| && SleepingPopper(s'.pcs[u]);
      assert SleepingPopper(s.pcs[u]);
      StepCount(s, t, a, PopperComing);
      StepCount(s, t, a, PopperSignalComing);
    }
  }

  lemma StepKeepsPushSide(s: State, t: nat, a: Action)
    requires PushSideInv(s) && Enabled(s, t, a) && PcInv(s.ring, s.pcs[t])
    ensures PushSideInv(Apply(s, t, a))
  {
    var s' := Apply(s, t, a);
    if AnySleepingPusher(s') && !s'.ring.closed && !(a.Sleep? && s.pcs[t].op.Push?) {
      var u :| 0 <= u < |s'.pcs| && SleepingPusher(s'.pcs[u]);
      assert SleepingPusher(s.pcs[u]);
      StepCount(s, t, a, PusherComing);
      StepCount(s, t, a, PusherSignalComing);
    }
  }

  lemma StepKeepsInv(s: State, t: nat, a: Action)
    requires Inv(s) && Enabled(s, t, a)
    ensures Inv(Apply(s, t, a))
  {
    StepKeepsRing(s, t, a);
    StepKeepsMutex(s, t, a);
    StepKeepsPcs(s, t, a);
    StepKeepsCloseInv(s, t, a);
    StepKeepsContents(s, t, a);
    StepKeepsPopSide(s, t, a);
    StepKeepsPushSide(s, t, a);
  }

  lemma {:induction false} RunKeepsInv(s: State, run: seq<Step>)
    requires Inv(s) && ValidRun(s, run)
    ensures Inv(After(s, run))
    ensures |After(s, run).pcs| == |s.pcs|
    ensures After(s, run).ring.Capacity() == s.ring.Capacity()
    decreases |run|
  {
    if run != [] {
      StepKeepsInv(s, run[0].t, run[0].a);
      StepKeepsRing(s, run[0].t, run[0].a);
      RunKeepsInv(Apply(s, run[0].t, run[0].a), run[1..]);
    }
  }

  ghost predicate Reachable(s: State, threads: nat, capacity: nat) {
    exists run :: ValidRun(Init(threads, capacity), run) && s == After(Init(threads, capacity), run)
  }

  lemma ReachableInv(s: State, threads: nat, capacity: nat)
    requires 0 < capacity && Reachable(s, threads, capacity)
    ensures Inv(s) && |s.pcs| == threads && s.ring.Capacity() == capacity
  {
    var run :| ValidRun(Init(threads, capacity), run) && s == After(Init(threads, capacity), run);
    InitInv(threads, capacity);
    EmptyRingContents(capacity);
    RunKeepsInv(Init(threads, capacity), run);
  }

  /// Wakeups and deadlock

  lemma {:induction false} CountSame(pcs: seq<Pc>, p: Pc -> bool, q: Pc -> bool)
    requires forall u | 0 <= u < |pcs| :: p(pcs[u]) == q(pcs[u])
    ensures Count(pcs, p) == Count(pcs, q)
  {
    if pcs != [] {
      CountSame(pcs[1..], p, q);
    }
  }

  // No lost wakeup: whenever the mutex is free and the queue open, a sleeping popper means that
  // every queued event already has a woken popper coming for it, and a sleeping pusher that
  // every free cell has a woken pusher coming for it.
  lemma NoLostWakeup(s: State, threads: nat, capacity: nat)
    requires 0 < capacity && Reachable(s, threads, capacity)
    requires s.owner.None? && !s.ring.closed
    ensures AnySleepingPopper(s) ==> s.ring.size <= Count(s.pcs, WokenPopper)
    ensures AnySleepingPusher(s) ==> capacity - s.ring.size <= Count(s.pcs, WokenPusher)
  {
    ReachableInv(s, threads, capacity);
    CountNone(s.pcs, PopperSignalComing);
    CountNone(s.pcs, PusherSignalComing);
    CountSame(s.pcs, PopperComing, WokenPopper);
    CountSame(s.pcs, PusherComing, WokenPusher);
  }

  // Nothing inside the queue can move: no thread can take a step that is neither a new call nor
  // a spurious wakeup.
  ghost predicate Stuck(s: State) {
    forall t: nat, a: Action :: !a.Call? && !a.Spurious? ==> !Enabled(s, t, a)
  }

  // A thread in the middle of a queue function can move unless it waits for a mutex that another
  // thread holds or sleeps on a condition variable.
  lemma CanMove(s: State, t: nat) returns (a: Action)
    requires Inv(s) && t < |s.pcs|
    requires HasMutex(s.pcs[t]) || s.pcs[t].Returned? || (s.owner.None? && (s.pcs[t].Entering? || s.pcs[t].Woken?))
    ensures !a.Call? && !a.Spurious? && Enabled(s, t, a)
  {
    var pc := s.pcs[t];
    if pc.Returned? {
      a := Return;
    } else if pc.Leaving? {
      a := Unlock;
    } else if pc.Testing? {
      a := if MustWait(s.ring, pc.op) then Sleep else Update;
    } else if pc.WakingPoppers? || pc.WakingPushers? {
      a := Notify(None);
    } else if pc.Signalling? {
      if u :| 0 <= u < |s.pcs| && Signalled(pc.op, s.pcs[u]) {
        a := Notify(Some(u));
      } else {
        a := Notify(None);
      }
    } else {
      a := Acquire;
    }
  }

  // With every thread outside the queue or asleep, whatever the sleepers wait for is missing.
  lemma QuietQueue(s: State)
    requires Inv(s)
    requires forall u | 0 <= u < |s.pcs| :: s.pcs[u].Idle? || s.pcs[u].Asleep?
    ensures s.ring.closed ==> !AnySleepingPopper(s) && !AnySleepingPusher(s)
    ensures AnySleepingPopper(s) ==> s.ring.size == 0
    ensures AnySleepingPusher(s) ==> s.ring.size == s.ring.Capacity()
  {
    CountNone(s.pcs, PopperComing);
    CountNone(s.pcs, PopperSignalComing);
    CountNone(s.pcs, PusherComing);
    CountNone(s.pcs, PusherSignalComing);
  }

  lemma StuckMeansAsleep(s: State)
    requires Inv(s) && Stuck(s)
    ensures s.owner.None?
    ensures forall u | 0 <= u < |s.pcs| :: s.pcs[u].Idle? || SleepingPopper(s.pcs[u]) || SleepingPusher(s.pcs[u])
    ensures s.ring.closed ==> !AnySleepingPopper(s) && !AnySleepingPusher(s)
    ensures AnySleepingPopper(s) ==> s.ring.size == 0
    ensures AnySleepingPusher(s) ==> s.ring.size == s.ring.Capacity()
  {
    forall u | 0 <= u < |s.pcs|
      ensures !HasMutex(s.pcs[u]) && !s.pcs[u].Returned?
    {
      if HasMutex(s.pcs[u]) || s.pcs[u].Returned? {
        var a := CanMove(s, u);
        assert false;
      }
    }
    assert s.owner.None?;
    forall u | 0 <= u < |s.pcs|
      ensures !s.pcs[u].Entering? && !s.pcs[u].Woken?
    {
      if s.pcs[u].Entering? || s.pcs[u].Woken? {
        var a := CanMove(s, u);
        assert false;
      }
    }
    QuietQueue(s);
  }

  // Deadlock freedom. When nothing can move, every thread is outside the queue or asleep; the
  // sleepers all wait for the same thing, which really is missing; and no one sleeps on a closed
  // queue.
  lemma DeadlockFreedom(s: State, threads: nat, capacity: nat)
    requires 0 < capacity && Reachable(s, threads, capacity) && Stuck(s)
    ensures s.owner.None?
    ensures forall u | 0 <= u < |s.pcs| :: s.pcs[u].Idle? || SleepingPopper(s.pcs[u]) || SleepingPusher(s.pcs[u])
    ensures s.ring.closed ==> !AnySleepingPopper(s) && !AnySleepingPusher(s)
    ensures AnySleepingPopper(s) ==> s.ring.size == 0
    ensures AnySleepingPusher(s) ==> s.ring.size == capacity
    ensures !(AnySleepingPopper(s) && AnySleepingPusher(s))
  {
    ReachableInv(s, threads, capacity);
    StuckMeansAsleep(s);
  }

  /// The queue as a first-in first-out list

  // In every interleaving, what has been pushed is what has been popped followed by what the
  // ring holds.
  lemma FirstInFirstOut(s: State, threads: nat, capacity: nat)
    requires 0 < capacity && Reachable(s, threads, capacity)
    ensures s.ring.WellFormed() && |s.ring.Contents()| <= capacity
    ensures Events(s.pushed) == s.popped + s.ring.Contents()
  {
    ReachableInv(s, threads, capacity);
  }

  ghost predicate IsBroadcasting(s: State) {
    exists u | 0 <= u < |s.pcs| :: s.pcs[u].WakingPoppers? || s.pcs[u].WakingPushers?
  }

  lemma StepAfterClose(s: State, t: nat, a: Action)
    requires Inv(s) && s.ring.closed && Enabled(s, t, a)
    ensures var s' := Apply(s, t, a);
            && s'.ring.WellFormed()
            && s'.ring.closed && s'.pushed == s.pushed
            && s'.popped + s'.ring.Contents() == s.popped + s.ring.Contents()
            && |s.popped| <= |s'.popped|
            && (!AnySleepingPopper(s) && !AnySleepingPusher(s) ==> !AnySleepingPopper(s') && !AnySleepingPusher(s'))
  {
    StepKeepsContents(s, t, a);
    var s' := Apply(s, t, a);
    forall u | 0 <= u < |s'.pcs| && s'.pcs[u].Asleep?
      ensures s.pcs[u].Asleep? && s.pcs[u] == s'.pcs[u]
    {
    }
  }

  lemma {:induction false} NobodySleepsAgain(s: State, run: seq<Step>)
    requires Inv(s) && s.ring.closed && ValidRun(s, run)
    ensures var s' := After(s, run);
            && s'.ring.WellFormed() && s'.ring.closed
            && s'.pushed == s.pushed
            && |s.popped| <= |s'.popped| && s'.popped + s'.ring.Contents() == s.popped + s.ring.Contents()
            && (!AnySleepingPopper(s) && !AnySleepingPusher(s) ==> !AnySleepingPopper(s') && !AnySleepingPusher(s'))
    decreases |run|
  {
    if run != [] {
      StepAfterClose(s, run[0].t, run[0].a);
      StepKeepsInv(s, run[0].t, run[0].a);
      NobodySleepsAgain(Apply(s, run[0].t, run[0].a), run[1..]);
    }
  }

  // The close protocol over a whole run. Once the queue is closed no push is accepted any more,
  // what the later pops hand out is exactly a prefix of what the ring held, in order, and nobody
  // sleeps once the closing thread has broadcast, now or later.
  lemma CloseProtocol(s: State, run: seq<Step>)
    requires Inv(s) && s.ring.closed && ValidRun(s, run)
    ensures var s' := After(s, run);
            && s'.ring.WellFormed() && s'.ring.closed
            && s'.pushed == s.pushed
            && |s.popped| <= |s'.popped| && s'.popped + s'.ring.Contents() == s.popped + s.ring.Contents()
            && (!IsBroadcasting(s) ==> !AnySleepingPopper(s') && !AnySleepingPusher(s'))
    decreases |run|
  {
    if !IsBroadcasting(s) {
      assert !AnySleepingPopper(s) && !AnySleepingPusher(s);
    }
    NobodySleepsAgain(s, run);
  }

  // A pop reports the end of the queue only when every accepted event has been handed out, and a
  // push is turned away only by the close.
  lemma RepliesAreHonest(s: State, threads: nat, capacity: nat, f: Finished)
    requires 0 < capacity && Reachable(s, threads, capacity) && f in s.finished
    ensures f.op.Push? ==> f.reply.Accepted? || (f.reply.Rejected? && s.ring.closed)
    ensures f.op.Pop? ==> f.reply.Got? || (f.reply.Ended? && s.ring.closed && s.popped == Events(s.pushed))
  {
    ReachableInv(s, threads, capacity);
    var i :| 0 <= i < |s.finished| && s.finished[i] == f;
    assert ReplyInv(s.ring, f.op, f.reply);
  }

  /// Linearizability

  // A queue whose operations happen all at once.
  datatype Fifo = Fifo(items: seq<Event>, closed: bool, capacity: nat)

  predicate Ready(q: Fifo, op: Op) {
    q.closed || match op
                case Push(_) => |q.items| < q.capacity
                case Pop => q.items != []
                case Close => true
  }

  function Effect(q: Fifo, op: Op): (Fifo, Reply)
    requires Ready(q, op)
  {
    match op
    case Push(e) => if q.closed then (q, Rejected) else (q.(items := q.items + [e]), Accepted)
    case Pop => if q.items == [] then (q, Ended) else (q.(items := q.items[1..]), Got(q.items[0]))
    case Close => (q.(closed := true), Closed)
  }

  datatype AtomicCall = NoCall | Pending(op: Op) | Answered(op: Op, reply: Reply)
  datatype Atomic = Atomic(queue: Fifo, calls: seq<AtomicCall>)
  datatype AtomicStep = Invoke(t: nat, op: Op) | TakeEffect(t: nat) | Respond(t: nat)

  ghost predicate AtomicEnabled(s: Atomic, a: AtomicStep) {
    && a.t < |s.calls|
    && match a
       case Invoke(t, op) => s.calls[t].NoCall?
       case TakeEffect(t) => s.calls[t].Pending? && Ready(s.queue, s.calls[t].op)
       case Respond(t) => s.calls[t].Answered?
  }

  ghost function AtomicApply(s: Atomic, a: AtomicStep): Atomic
    requires AtomicEnabled(s, a)
  {
    match a
    case Invoke(t, op) => s.(calls := s.calls[t := Pending(op)])
    case TakeEffect(t) =>
      var (q, reply) := Effect(s.queue, s.calls[t].op);
      Atomic(q, s.calls[t := Answered(s.calls[t].op, reply)])
    case Respond(t) => s.(calls := s.calls[t := NoCall])
  }

  ghost predicate ValidAtomicRun(s: Atomic, run: seq<AtomicStep>)
    decreases |run|
  {
    run == [] || (AtomicEnabled(s, run[0]) && ValidAtomicRun(AtomicApply(s, run[0]), run[1..]))
  }

  ghost function AtomicAfter(s: Atomic, run: seq<AtomicStep>): Atomic
    requires ValidAtomicRun(s, run)
    decreases |run|
  {
    if run == [] then s else AtomicAfter(AtomicApply(s, run[0]), run[1..])
  }

  function CallOf(pc: Pc): AtomicCall {
    match pc
    case Idle => NoCall
    case Entering(op) => Pending(op)
    case Testing(op) => Pending(op)
    case Asleep(op) => Pending(op)
    case Woken(op) => Pending(op)
    case Signalling(op, reply) => Answered(op, reply)
    case WakingPoppers => Answered(Close, Closed)
    case WakingPushers => Answered(Close, Closed)
    case Leaving(op, reply) => Answered(op, reply)
    case Returned(op, reply) => Answered(op, reply)
  }

  ghost function Abstract(s: State): Atomic
    requires s.ring.WellFormed()
  {
    Atomic(Fifo(s.ring.Contents(), s.ring.closed, s.ring.Capacity()),
           seq(|s.pcs|, u requires 0 <= u < |s.pcs| => CallOf(s.pcs[u])))
  }

  // A step as the atomic queue sees it: lock traffic, sleeps and signals are invisible.
  function Visible(step: Step): Option<AtomicStep> {
    match step.a
    case Call(op) => Some(Invoke(step.t, op))
    case Update => Some(TakeEffect(step.t))
    case Return => Some(Respond(step.t))
    case _ => None
  }

  function Project(run: seq<Step>): seq<AtomicStep> {
    if run == [] then []
    else if Visible(run[0]).None? then Project(run[1..])
    else [Visible(run[0]).value] + Project(run[1..])
  }

  // The step and its image lead to the same abstract state.
  ghost predicate Refines(s: State, t: nat, a: Action)
    requires s.ring.WellFormed() && Enabled(s, t, a)
  {
    var s' := Apply(s, t, a);
    && s'.ring.WellFormed()
    && match Visible(Step(t, a))
       case None => Abstract(s') == Abstract(s)
       case Some(v) => AtomicEnabled(Abstract(s), v) && AtomicApply(Abstract(s), v) == Abstract(s')
  }

  lemma UpdateRefines(s: State, t: nat, a: Action)
    requires s.ring.WellFormed() && PcsInv(s) && ContentsInv(s) && Enabled(s, t, a) && a.Update?
    ensures Refines(s, t, a)
  {
    var s' := Apply(s, t, a);
    StepKeepsContents(s, t, a);
    var op := s.pcs[t].op;
    assert Abstract(s).calls[t] == Pending(op);
    if op.Push? && !s.ring.closed {
      PutAppends(s.ring, op.e);
    } else if op.Pop? && s.ring.size != 0 {
      DropRemovesOldest(s.ring);
    } else if op.Close? {
      CloseKeepsContents(s.ring);
    }
    assert AtomicApply(Abstract(s), Visible(Step(t, a)).value).calls == Abstract(s').calls;
  }

  lemma OtherStepRefines(s: State, t: nat, a: Action)
    requires s.ring.WellFormed() && PcsInv(s) && ContentsInv(s) && Enabled(s, t, a) && !a.Update?
    ensures Refines(s, t, a)
  {
    var s' := Apply(s, t, a);
    StepKeepsContents(s, t, a);
    var v := Visible(Step(t, a));
    if v.Some? {
      assert AtomicApply(Abstract(s), v.value).calls == Abstract(s').calls;
    } else {
      assert Abstract(s').calls == Abstract(s).calls;
    }
  }

  lemma StepRefines(s: State, t: nat, a: Action)
    requires Inv(s) && Enabled(s, t, a)
    ensures Refines(s, t, a)
  {
    if a.Update? {
      UpdateRefines(s, t, a);
    } else {
      OtherStepRefines(s, t, a);
    }
  }

  // Linearizability: leave out of any run all steps but the calls, the returns and the critical
  // sections, and what remains is a run of the atomic queue with the same replies, in which each
  // operation takes effect between its own call and its own return.
  lemma {:induction false} Linearizable(s: State, run: seq<Step>)
    requires Inv(s) && ValidRun(s, run)
    ensures After(s, run).ring.WellFormed()
    ensures ValidAtomicRun(Abstract(s), Project(run))
    ensures AtomicAfter(Abstract(s), Project(run)) == Abstract(After(s, run))
    decreases |run|
  {
    if run != [] {
      StepKeepsInv(s, run[0].t, run[0].a);
      StepRefines(s, run[0].t, run[0].a);
      Linearizable(Apply(s, run[0].t, run[0].a), run[1..]);
      if Visible(run[0]).Some? {
        assert Project(run)[1..] == Project(run[1..]);
      }
    }
  }

  /// Each producer's own order

  function PushesBy(pushed: seq<Sent>, t: nat): seq<Event> {
    if pushed == [] then []
    else PushesBy(pushed[..|pushed| - 1], t)
         + (if pushed[|pushed| - 1].thread == t then [pushed[|pushed| - 1].e] else [])
  }

  // The events of t's completed, accepted pushes in the order in which t made them.
  function AcceptedFor(finished: seq<Finished>, t: nat): seq<Event> {
    if finished == [] then []
    else
      var f := finished[|finished| - 1];
      AcceptedFor(finished[..|finished| - 1], t)
      + (if f.thread == t && f.op.Push? && f.reply.Accepted? then [f.op.e] else [])
  }

  function InFlight(pc: Pc): seq<Event> {
    if (pc.Signalling? || pc.Leaving? || pc.Returned?) && pc.op.Push? && pc.reply.Accepted? then [pc.op.e] else []
  }

  ghost predicate OrderInv(s: State) {
    forall t | 0 <= t < |s.pcs| :: PushesBy(s.pushed, t) == AcceptedFor(s.finished, t) + InFlight(s.pcs[t])
  }

  lemma PushesByAppend(pushed: seq<Sent>, x: Sent, t: nat)
    ensures PushesBy(pushed + [x], t) == PushesBy(pushed, t) + (if x.thread == t then [x.e] else [])
  {
    assert (pushed + [x])[..|pushed|] == pushed;
  }

  lemma AcceptedForAppend(finished: seq<Finished>, f: Finished, t: nat)
    ensures AcceptedFor(finished + [f], t)
         == AcceptedFor(finished, t) + (if f.thread == t && f.op.Push? && f.reply.Accepted? then [f.op.e] else [])
  {
    assert (finished + [f])[..|finished|] == finished;
  }

  // Only an accepted push and a return touch the records, and only for the thread that steps.
  lemma StepRecords(s: State, t: nat, a: Action, u: nat)
    requires Enabled(s, t, a) && u < |s.pcs|
    ensures var s' := Apply(s, t, a);
            var pc := s.pcs[t];
            if a.Update? && pc.op.Push? && !s.ring.closed then
              && s'.pushed == s.pushed + [Sent(t, pc.op.e)] && s'.finished == s.finished
              && InFlight(pc) == [] && InFlight(s'.pcs[u]) == if u == t then [pc.op.e] else InFlight(s.pcs[u])
            else if a.Return? then
              && s'.pushed == s.pushed && s'.finished == s.finished + [Finished(t, pc.op, pc.reply)]
              && InFlight(s'.pcs[u]) == if u == t then [] else InFlight(s.pcs[u])
            else
              s'.pushed == s.pushed && s'.finished == s.finished && InFlight(s'.pcs[u]) == InFlight(s.pcs[u])
  {
  }

  lemma StepKeepsOrder(s: State, t: nat, a: Action)
    requires OrderInv(s) && Enabled(s, t, a)
    ensures OrderInv(Apply(s, t, a))
  {
    var s' := Apply(s, t, a);
    var pc := s.pcs[t];
    forall u | 0 <= u < |s'.pcs|
      ensures PushesBy(s'.pushed, u) == AcceptedFor(s'.finished, u) + InFlight(s'.pcs[u])
    {
      StepRecords(s, t, a, u);
      if a.Update? && pc.op.Push? && !s.ring.closed {
        PushesByAppend(s.pushed, Sent(t, pc.op.e), u);
      } else if a.Return? {
        AcceptedForAppend(s.finished, Finished(t, pc.op, pc.reply), u);
      }
    }
  }

  lemma {:induction false} RunKeepsOrder(s: State, run: seq<Step>)
    requires Inv(s) && OrderInv(s) && ValidRun(s, run)
    ensures OrderInv(After(s, run))
    decreases |run|
  {
    if run != [] {
      StepKeepsInv(s, run[0].t, run[0].a);
      StepKeepsOrder(s, run[0].t, run[0].a);
      RunKeepsOrder(Apply(s, run[0].t, run[0].a), run[1..]);
    }
  }

  // The queue keeps every producer's own order: the events of thread t, in queue order, are
  // those of its accepted pushes in the order t made them.
  lemma ProducerOrder(threads: nat, capacity: nat, run: seq<Step>, t: nat)
    requires 0 < capacity && ValidRun(Init(threads, capacity), run) && t < threads
    ensures var s := After(Init(threads, capacity), run);
            |s.pcs| == threads && PushesBy(s.pushed, t) == AcceptedFor(s.finished, t) + InFlight(s.pcs[t])
  {
    InitInv(threads, capacity);
    RunKeepsInv(Init(threads, capacity), run);
    RunKeepsOrder(Init(threads, capacity), run);
  }
}
