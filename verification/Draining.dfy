/** While the program is running, what has been accepted can always be dealt with. */
module Draining {
  import opened EventTypes
  import opened Pipeline
  import opened Shutdown
  import Q = QueueMonitor

  // The writer has been started and nobody has asked for the exit.
  predicate InService(p: Program) {
    !p.exitRequested && !p.writer.WNotStarted?
  }

  // No accepted event is waiting, in the queue or in the writer's hand.
  predicate Drained(s: State)
    requires |s.q.pcs| == 4
  {
    s.q.ring.size == 0 && InHand(s) == []
  }

  lemma ServiceMeans(p: Program, closed: bool)
    requires InService(p) && LifetimesInv(p, closed)
    ensures !closed && !p.writer.WFinished? && !p.main.InClose?
  {
  }

  lemma ServiceLasts(p: Program, step: Step, reply: Option<Event>)
    requires InService(p) && ProgramEnabled(p, step) && Price(p, step) == 0
    ensures InService(ProgramApply(p, step, reply))
  {
  }

  // A free step, in which whatever the writer asks of the database succeeds.
  lemma DrainMoves(s: State) returns (step: Step)
    requires Inv(s) && InService(s.p) && !Drained(s)
    ensures Enabled(s, step) && Price(s.p, step) == 0 && (step.WriterStep? ==> step.ok)
  {
    ServiceMeans(s.p, s.q.ring.closed);
    if t :| 0 <= t < 4 && !Quiet(s.q.pcs[t]) {
      step := QueueMoves(s, t);
    } else {
      Q.QuietQueue(s.q);
      assert Quiet(s.q.pcs[WRITER]) && Q.PcInv(s.q.ring, s.q.pcs[WRITER]);
      step := WriterMoves(s);
    }
  }

  lemma AllHandled(s: State)
    requires Inv(s) && Drained(s)
    ensures Q.Events(s.q.pushed) == Taken(s.p.handled)
  {
    assert s.q.ring.Contents() == [];
    assert Taken(s.p.handled) + [] == Taken(s.p.handled);
  }

  // From any state before the exit request some free run of at most Weight(s) steps, in which
  // connection attempts succeed, leaves no accepted event waiting: the queue is empty and
  // everything accepted has been inserted, skipped or dropped.
  lemma {:induction false} DrainIsReached(s: State) returns (run: seq<Step>)
    requires Inv(s) && InService(s.p)
    ensures ValidRun(s, run) && TotalPrice(s, run) == 0 && |run| <= Weight(s)
    ensures var s' := After(s, run);
            && s'.q.ring.size == 0 && InService(s'.p)
            && Q.Events(s'.q.pushed) == Taken(s'.p.handled)
    decreases Weight(s)
  {
    if Drained(s) {
      run := [];
      AllHandled(s);
    } else {
      var step := DrainMoves(s);
      StepKeepsInv(s, step);
      WeightFalls(s, step);
      ServiceLasts(s.p, step, PopReply(s.q.pcs[WRITER]));
      var rest := DrainIsReached(Apply(s, step));
      run := [step] + rest;
      assert run[1..] == rest;
    }
  }
}
