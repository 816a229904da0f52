/** What the writer does over whole runs: with the events it takes, and with its connection. */
module WriterRuns {
  import opened EventTypes
  import opened Pipeline
  import opened DatabaseDown
  import Q = QueueMonitor

  // What becomes of an event by the answer to its insert, if one is tried.
  function Settled(e: Event, tables: Tables, ok: bool): Handled {
    if Unstored(e.kind, tables) then Handled(e, Skipped, None)
    else Handled(e, if ok then Inserted else Dropped, Some(if e.kind == PumpFun then tables.pumpfun else tables.raydium))
  }

  // The events that the writer settles in a run: one in each of its steps with an event in its hand.
  ghost function SettledIn(s: State, run: seq<Step>): seq<Handled>
    requires ValidRun(s, run)
    decreases |run|
  {
    if run == [] then []
    else
      (if run[0].WriterStep? && s.p.writer.Holding? then [Settled(s.p.writer.e, s.p.tables, run[0].ok)] else [])
      + SettledIn(Apply(s, run[0]), run[1..])
  }

  lemma StepSettles(p: Program, step: Step, reply: Option<Event>)
    ensures ProgramApply(p, step, reply).handled
         == p.handled + if step.WriterStep? && p.writer.Holding? then [Settled(p.writer.e, p.tables, step.ok)] else []
    ensures ProgramApply(p, step, reply).tables == p.tables
  {
    if !step.WriterStep? {
      OnlyTheWriterHandles(p, step, reply);
      assert p.handled + [] == p.handled;
    }
  }

  lemma Regroup(a: seq<Handled>, b: seq<Handled>, c: seq<Handled>)
    ensures (a + b) + c == a + (b + c)
  {
  }

  // Over any run: an event of a kind that is not stored is skipped, another is inserted into the
  // table of its kind or dropped, as the database answers, and nothing else is recorded.
  lemma {:induction false} RunSettles(s: State, run: seq<Step>)
    requires ValidRun(s, run)
    ensures After(s, run).p.handled == s.p.handled + SettledIn(s, run)
    decreases |run|
  {
    if run == [] {
      assert s.p.handled + [] == s.p.handled;
    } else {
      var reply := PopReply(s.q.pcs[WRITER]);
      StepSettles(s.p, run[0], reply);
      RunSettles(Apply(s, run[0]), run[1..]);
      Regroup(s.p.handled,
              if run[0].WriterStep? && s.p.writer.Holding? then [Settled(s.p.writer.e, s.p.tables, run[0].ok)] else [],
              SettledIn(Apply(s, run[0]), run[1..]));
    }
  }

  // The connection is given up exactly after an insert that failed.
  lemma ReconnectsIffDropped(s: State, step: Step)
    requires Enabled(s, step) && step.WriterStep? && s.p.writer.Holding?
    ensures Apply(s, step).p.writer.Connecting? <==> !Unstored(s.p.writer.e.kind, s.p.tables) && !step.ok
  {
  }

  lemma ConnectingTakesNothing(s: State, step: Step)
    requires Inv(s) && Enabled(s, step) && s.p.writer.Connecting?
    ensures Apply(s, step).p.handled == s.p.handled && Apply(s, step).q.popped == s.q.popped
  {
    StepSettles(s.p, step, PopReply(s.q.pcs[WRITER]));
    var x := QueuePart(s.p, step);
    if x.Some? {
      QueueStepTakes(s.q, x.value.t, x.value.a);
    }
  }

  // And until an attempt succeeds nothing is taken from the queue and nothing settled.
  lemma {:induction false} NothingWithoutConnection(s: State, run: seq<Step>)
    requires Inv(s) && s.p.writer.Connecting? && ValidRun(s, run) && WithoutConnection(s, run)
    ensures After(s, run).p.handled == s.p.handled && After(s, run).q.popped == s.q.popped
    decreases |run|
  {
    if run != [] {
      StepKeepsInv(s, run[0]);
      StillConnecting(s.p, run[0], PopReply(s.q.pcs[WRITER]), s.q.ring.closed);
      ConnectingTakesNothing(s, run[0]);
      NothingWithoutConnection(Apply(s, run[0]), run[1..]);
    }
  }
}
