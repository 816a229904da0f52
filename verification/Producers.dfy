/** What the producers push is what their messages hold: over every run, in the order of the
    messages and of the events in each. */
module Producers {
  import opened EventTypes
  import opened Pipeline
  import Q = QueueMonitor

  // The events of the message that a producer takes in a step: at the head of its loop, while its
  // flag is up.
  function TakenIn(p: Program, step: Step, w: bool): seq<Event> {
    if step.ProducerStep? && step.websocket == w && Producer(p, w).LoopHead? && Running(p, w) then step.batch else []
  }

  // The events of the messages that it has taken in a run.
  ghost function MessagesTaken(s: State, run: seq<Step>, w: bool): seq<Event>
    requires ValidRun(s, run)
    decreases |run|
  {
    if run == [] then [] else TakenIn(s.p, run[0], w) + MessagesTaken(Apply(s, run[0]), run[1..], w)
  }

  // The event of a push under way that the queue has not accepted yet.
  function NotYetAccepted(pc: Q.Pc): seq<Event> {
    if (pc.Entering? || pc.Testing? || pc.Asleep? || pc.Woken?) && pc.op.Push? then [pc.op.e] else []
  }

  // The events of its message that the producer has not offered yet.
  function NotYetOffered(pc: ProducerPc): seq<Event> {
    match pc
    case Delivering(rest) => rest
    case Pushing(rest) => rest
    case _ => []
  }

  function Pushed(q: Q.State, t: nat): seq<Event>
    requires t < |q.pcs|
  {
    Q.PushesBy(q.pushed, t) + NotYetAccepted(q.pcs[t])
  }

  // All that a producer has taken so far.
  function Account(s: State, w: bool): seq<Event>
    requires |s.q.pcs| == 4
  {
    Pushed(s.q, Thread(w)) + NotYetOffered(Producer(s.p, w))
  }

  /// Steps

  lemma AcceptedIsPushed(q: Q.State, t: nat, u: nat)
    requires |q.pcs| == 4 && u < 4 && Q.Enabled(q, t, Q.Update)
    requires q.pcs[t].op.Push? && !q.ring.closed
    ensures |Q.Apply(q, t, Q.Update).pcs| == 4
    ensures Pushed(Q.Apply(q, t, Q.Update), u) == Pushed(q, u)
  {
    var e, before, q' := q.pcs[t].op.e, Q.PushesBy(q.pushed, u), Q.Apply(q, t, Q.Update);
    Q.PushesByAppend(q.pushed, Q.Sent(t, e), u);
    assert q'.pushed == q.pushed + [Q.Sent(t, e)];
    if t == u {
      assert NotYetAccepted(q.pcs[u]) == [e] && NotYetAccepted(q'.pcs[u]) == [];
      assert (before + [e]) + [] == before + [e];
    } else {
      assert q'.pcs[u] == q.pcs[u];
      assert before + [] == before;
    }
  }

  lemma NothingIsAccepted(q: Q.State, t: nat, a: Q.Action, u: nat)
    requires |q.pcs| == 4 && u < 4 && Q.Enabled(q, t, a)
    requires !(a.Update? && q.pcs[t].op.Push?)
    ensures var q' := Q.Apply(q, t, a);
            && |q'.pcs| == 4 && q'.pushed == q.pushed
            && NotYetAccepted(q'.pcs[u]) == NotYetAccepted(q.pcs[u]) + if t == u && a.Call? && a.op.Push? then [a.op.e] else []
  {
  }

  lemma QueueKeepsPushed(q: Q.State, t: nat, a: Q.Action, u: nat)
    requires |q.pcs| == 4 && u < 4 && Q.Enabled(q, t, a)
    requires q.pcs[t].Testing? && q.pcs[t].op.Push? ==> !q.ring.closed
    ensures |Q.Apply(q, t, a).pcs| == 4
    ensures Pushed(Q.Apply(q, t, a), u) == Pushed(q, u) + if t == u && a.Call? && a.op.Push? then [a.op.e] else []
  {
    if a.Update? && q.pcs[t].op.Push? {
      AcceptedIsPushed(q, t, u);
    } else {
      NothingIsAccepted(q, t, a, u);
    }
  }

  lemma OpenWhilePushing(s: State, step: Step)
    requires CallsInv(s) && LifetimesInv(s.p, s.q.ring.closed) && Enabled(s, step)
    ensures var x := QueuePart(s.p, step);
            x.Some? && s.q.pcs[x.value.t].Testing? && s.q.pcs[x.value.t].op.Push? ==> !s.q.ring.closed
  {
    var x := QueuePart(s.p, step);
    if x.Some? && s.q.pcs[x.value.t].Testing? && s.q.pcs[x.value.t].op.Push? {
      assert s.p.websocket.Pushing? || s.p.poller.Pushing?;
    }
  }

  // The event that producer w offers to the queue in a step.
  function Offered(p: Program, step: Step, w: bool): seq<Event> {
    var x := QueuePart(p, step);
    if x.Some? && x.value.t == Thread(w) && x.value.a.Call? && x.value.a.op.Push? then [x.value.a.op.e] else []
  }

  lemma OneOffer(pc: ProducerPc, running: bool, ok: bool, batch: seq<Event>)
    ensures (if pc.Delivering? && pc.rest != [] then [pc.rest[0]] else []) + NotYetOffered(ProducerNext(pc, running, ok, batch))
         == NotYetOffered(pc) + if pc.LoopHead? && running then batch else []
  {
    if pc.Delivering? && pc.rest != [] {
      assert [pc.rest[0]] + pc.rest[1..] == pc.rest;
    }
  }

  lemma ProducerOffers(p: Program, step: Step, reply: Option<Event>, w: bool)
    requires step.ProducerStep? && step.websocket == w
    ensures Offered(p, step, w) + NotYetOffered(Producer(ProgramApply(p, step, reply), w))
         == NotYetOffered(Producer(p, w)) + TakenIn(p, step, w)
  {
    OneOffer(Producer(p, w), Running(p, w), step.ok, step.batch);
  }

  lemma OthersOfferNothing(p: Program, step: Step, reply: Option<Event>, w: bool, closed: bool)
    requires !(step.ProducerStep? && step.websocket == w) && ProgramEnabled(p, step) && LifetimesInv(p, closed)
    ensures Offered(p, step, w) == [] == TakenIn(p, step, w)
    ensures NotYetOffered(Producer(ProgramApply(p, step, reply), w)) == NotYetOffered(Producer(p, w))
  {
  }

  lemma StepOffers(p: Program, step: Step, reply: Option<Event>, w: bool, closed: bool)
    requires ProgramEnabled(p, step) && LifetimesInv(p, closed)
    ensures Offered(p, step, w) + NotYetOffered(Producer(ProgramApply(p, step, reply), w))
         == NotYetOffered(Producer(p, w)) + TakenIn(p, step, w)
  {
    if step.ProducerStep? && step.websocket == w {
      ProducerOffers(p, step, reply, w);
    } else {
      OthersOfferNothing(p, step, reply, w, closed);
    }
  }

  lemma StepPushes(s: State, step: Step, w: bool)
    requires CallsInv(s) && LifetimesInv(s.p, s.q.ring.closed) && Enabled(s, step)
    ensures |Apply(s, step).q.pcs| == 4
    ensures Pushed(Apply(s, step).q, Thread(w)) == Pushed(s.q, Thread(w)) + Offered(s.p, step, w)
  {
    var x := QueuePart(s.p, step);
    if x.Some? {
      OpenWhilePushing(s, step);
      QueueKeepsPushed(s.q, x.value.t, x.value.a, Thread(w));
    }
  }

  lemma Regroup(a: seq<Event>, b: seq<Event>, c: seq<Event>)
    ensures (a + b) + c == a + (b + c)
  {
  }

  lemma StepAccounts(s: State, step: Step, w: bool)
    requires CallsInv(s) && LifetimesInv(s.p, s.q.ring.closed) && Enabled(s, step)
    ensures |Apply(s, step).q.pcs| == 4
    ensures Account(Apply(s, step), w) == Account(s, w) + TakenIn(s.p, step, w)
  {
    StepOffers(s.p, step, PopReply(s.q.pcs[WRITER]), w, s.q.ring.closed);
    StepPushes(s, step, w);
    Regroup(Pushed(s.q, Thread(w)), Offered(s.p, step, w), NotYetOffered(Producer(Apply(s, step).p, w)));
    Regroup(Pushed(s.q, Thread(w)), NotYetOffered(Producer(s.p, w)), TakenIn(s.p, step, w));
  }

  /// Runs

  lemma {:induction false} RunAccounts(s: State, run: seq<Step>, w: bool)
    requires Inv(s) && ValidRun(s, run)
    ensures |After(s, run).q.pcs| == 4
    ensures Account(After(s, run), w) == Account(s, w) + MessagesTaken(s, run, w)
    decreases |run|
  {
    if run == [] {
      assert Account(s, w) + [] == Account(s, w);
    } else {
      StepKeepsInv(s, run[0]);
      StepAccounts(s, run[0], w);
      RunAccounts(Apply(s, run[0]), run[1..], w);
      Regroup(Account(s, w), TakenIn(s.p, run[0], w), MessagesTaken(Apply(s, run[0]), run[1..], w));
    }
  }

  lemma StartsEmpty(capacity: nat, useWebsocket: bool, usePoller: bool, tables: Tables, w: bool)
    ensures var s := Init(capacity, useWebsocket, usePoller, tables); |s.q.pcs| == 4 && Account(s, w) == []
  {
  }

  // In every run of the program, the events of all messages that a producer has taken are those it
  // has pushed, the one whose push is under way, and those it has still to offer, in this order.
  lemma MessagesArePushed(capacity: nat, useWebsocket: bool, usePoller: bool, tables: Tables, run: seq<Step>, w: bool)
    requires 0 < capacity && ValidRun(Init(capacity, useWebsocket, usePoller, tables), run)
    ensures var s := After(Init(capacity, useWebsocket, usePoller, tables), run);
            && |s.q.pcs| == 4
            && MessagesTaken(Init(capacity, useWebsocket, usePoller, tables), run, w)
               == (Q.PushesBy(s.q.pushed, Thread(w)) + NotYetAccepted(s.q.pcs[Thread(w)])) + NotYetOffered(Producer(s.p, w))
  {
    var s := Init(capacity, useWebsocket, usePoller, tables);
    InitInv(capacity, useWebsocket, usePoller, tables);
    RunAccounts(s, run, w);
    StartsEmpty(capacity, useWebsocket, usePoller, tables, w);
    assert [] + MessagesTaken(s, run, w) == MessagesTaken(s, run, w);
  }

  lemma IdleWhenFinished(s: State, w: bool)
    requires CallsInv(s) && Producer(s.p, w).Finished?
    ensures NotYetAccepted(s.q.pcs[Thread(w)]) == []
  {
  }

  // So a producer that has finished has pushed every event of every message it has taken, in order,
  // and nothing else.
  lemma FinishedHasPushedAll(capacity: nat, useWebsocket: bool, usePoller: bool, tables: Tables, run: seq<Step>, w: bool)
    requires 0 < capacity && ValidRun(Init(capacity, useWebsocket, usePoller, tables), run)
    requires Producer(After(Init(capacity, useWebsocket, usePoller, tables), run).p, w).Finished?
    ensures Q.PushesBy(After(Init(capacity, useWebsocket, usePoller, tables), run).q.pushed, Thread(w))
         == MessagesTaken(Init(capacity, useWebsocket, usePoller, tables), run, w)
  {
    var s := Init(capacity, useWebsocket, usePoller, tables);
    InitInv(capacity, useWebsocket, usePoller, tables);
    RunKeepsInv(s, run);
    MessagesArePushed(capacity, useWebsocket, usePoller, tables, run, w);
    IdleWhenFinished(After(s, run), w);
  }
}
