/** The whole program: main, the two producers and the database writer around one event queue.
    Every step is a step of one of the four threads; inside the queue functions a thread moves by
    the steps of QueueMonitor. */
module Pipeline {
  import opened EventTypes
  import opened RingBuffer
  import Q = QueueMonitor

  const MAIN: nat := 0
  const WEBSOCKET: nat := 1
  const POLLER: nat := 2
  const WRITER: nat := 3

  // The table names of the configuration; an empty name means that the kind is not stored.
  datatype Tables = Tables(pumpfun: string, raydium: string)

  // table_for_event
  function TableFor(kind: EventKind, tables: Tables): Option<string> {
    match kind
    case PumpFun => if tables.pumpfun != "" then Some(tables.pumpfun) else None
    case Raydium => if tables.raydium != "" then Some(tables.raydium) else None
    case Unknown => None
  }

  datatype MainPc =
    | StartWriter | StartWebsocket | StartPoller | Waiting
    | StopWebsocket | JoinWebsocket | StopPoller | JoinPoller
    | CallClose | InClose | StopWriter | JoinWriter | Destroy | Exited

  // A producer runs messages through the parser; `rest` are the events of the message at hand
  // that are still to be pushed.
  datatype ProducerPc =
    | NotStarted
    | Booting
    | LoopHead
    | Delivering(rest: seq<Event>)
    | Pushing(rest: seq<Event>)
    | Finished

  datatype WriterPc = WNotStarted | Connecting | WLoopHead | Popping | Holding(e: Event) | WFinished

  // What became of an event that the writer took from the queue.
  datatype Fate = Inserted | Skipped | Dropped
  // `table` is the table of the insert, if one was tried.
  datatype Handled = Handled(e: Event, fate: Fate, table: Option<string>)

  datatype Program = Program(
    main: MainPc,
    useWebsocket: bool,
    usePoller: bool,
    exitRequested: bool,
    websocket: ProducerPc,
    poller: ProducerPc,
    websocketRunning: bool,
    pollerRunning: bool,
    writer: WriterPc,
    writerRunning: bool,
    handled: seq<Handled>,
    tables: Tables)

  datatype State = State(q: Q.State, p: Program)

  function Init(capacity: nat, useWebsocket: bool, usePoller: bool, tables: Tables): State {
    State(Q.Init(4, capacity),
          Program(StartWriter, useWebsocket, usePoller, false,
                  NotStarted, NotStarted, false, false, WNotStarted, false, [], tables))
  }

  // One step. `ok` is the answer of whatever the step calls outside the program: thread creation,
  // library set-up, a connection attempt, an insert. `batch` is the next message's events.
  datatype Step =
    | RaiseExit
    | MainStep(ok: bool)
    | ProducerStep(websocket: bool, ok: bool, batch: seq<Event>)
    | WriterStep(ok: bool)
    | QueueStep(t: nat, a: Q.Action)

  function Producer(p: Program, websocket: bool): ProducerPc { if websocket then p.websocket else p.poller }
  function Running(p: Program, websocket: bool): bool { if websocket then p.websocketRunning else p.pollerRunning }
  function Thread(websocket: bool): nat { if websocket then WEBSOCKET else POLLER }

  // What a step does to the queue: a thread enters a queue function, moves inside it, or returns.
  function QueuePart(p: Program, step: Step): Option<Q.Step> {
    match step
    case QueueStep(t, a) => Some(Q.Step(t, a))
    case RaiseExit => None
    case MainStep(_) =>
      (match p.main
       case CallClose => Some(Q.Step(MAIN, Q.Call(Q.Close)))
       case InClose => Some(Q.Step(MAIN, Q.Return))
       case _ => None)
    case ProducerStep(w, _, _) =>
      (match Producer(p, w)
       case Delivering(rest) => if rest == [] then None else Some(Q.Step(Thread(w), Q.Call(Q.Push(rest[0]))))
       case Pushing(_) => Some(Q.Step(Thread(w), Q.Return))
       case _ => None)
    case WriterStep(_) =>
      (match p.writer
       case WLoopHead => if p.writerRunning then Some(Q.Step(WRITER, Q.Call(Q.Pop))) else None
       case Popping => Some(Q.Step(WRITER, Q.Return))
       case _ => None)
  }

  predicate Alive(pc: ProducerPc) { !pc.NotStarted? && !pc.Finished? }

  predicate ProgramEnabled(p: Program, step: Step) {
    match step
    case QueueStep(_, a) => !a.Call? && !a.Return?
    case RaiseExit => p.main.Waiting? && !p.exitRequested
    case MainStep(_) =>
      (match p.main
       case Waiting => p.exitRequested
       case JoinWebsocket => p.websocket.Finished?
       case JoinPoller => p.poller.Finished?
       case JoinWriter => p.writer.WFinished?
       case Exited => false
       case _ => true)
    case ProducerStep(w, _, _) => Alive(Producer(p, w))
    case WriterStep(_) => !p.writer.WNotStarted? && !p.writer.WFinished?
  }

  ghost predicate Enabled(s: State, step: Step) {
    && |s.q.pcs| == 4
    && ProgramEnabled(s.p, step)
    && var x := QueuePart(s.p, step);
       x.Some? ==> Q.Enabled(s.q, x.value.t, x.value.a)
  }

  // Where main goes from its loop on.
  function MainNext(p: Program): MainPc {
    match p.main
    case Waiting => StopWebsocket
    case StopWebsocket => if p.useWebsocket then JoinWebsocket else StopPoller
    case JoinWebsocket => StopPoller
    case StopPoller => if p.usePoller && p.pollerRunning then JoinPoller else CallClose
    case JoinPoller => CallClose
    case CallClose => InClose
    case InClose => StopWriter
    case StopWriter => JoinWriter
    case JoinWriter => Destroy
    case _ => Exited
  }

  // The three starts may fail; the three stops lower a flag.
  function MainApply(p: Program, ok: bool): Program {
    match p.main
    case StartWriter =>
      if ok then p.(main := StartWebsocket, writer := Connecting, writerRunning := true) else p.(main := Destroy)
    case StartWebsocket =>
      if p.useWebsocket && ok then p.(main := StartPoller, websocket := Booting, websocketRunning := true)
      else p.(main := StartPoller, useWebsocket := false, usePoller := p.usePoller || p.useWebsocket)
    case StartPoller =>
      var start := p.usePoller && ok;
      p.(main := MainPc.Waiting, poller := if start then Booting else p.poller, pollerRunning := p.pollerRunning || start)
    case _ =>
      p.(main := MainNext(p),
         websocketRunning := p.websocketRunning && !(p.main.StopWebsocket? && p.useWebsocket),
         pollerRunning := p.pollerRunning && !(p.main.StopPoller? && p.usePoller),
         writerRunning := p.writerRunning && !p.main.StopWriter?)
  }

  function ProducerNext(pc: ProducerPc, running: bool, ok: bool, batch: seq<Event>): ProducerPc {
    match pc
    case Booting => if ok then LoopHead else Finished
    case LoopHead => if running then Delivering(batch) else Finished
    case Delivering(rest) => if rest == [] then LoopHead else Pushing(rest[1..])
    case Pushing(rest) => Delivering(rest)
    case _ => pc
  }

  // A producer that cannot set up its library lowers its own flag on the way out.
  function ProducerApply(p: Program, w: bool, ok: bool, batch: seq<Event>): Program {
    var pc := Producer(p, w);
    var pc' := ProducerNext(pc, Running(p, w), ok, batch);
    var running := Running(p, w) && !(pc.Booting? && !ok);
    if w then p.(websocket := pc', websocketRunning := running) else p.(poller := pc', pollerRunning := running)
  }

  function Outcome(e: Event, tables: Tables, ok: bool): Handled {
    var table := TableFor(e.kind, tables);
    Handled(e, if table.None? then Skipped else if ok then Inserted else Dropped, table)
  }

  function WriterNext(p: Program, ok: bool, reply: Option<Event>): WriterPc {
    match p.writer
    case Connecting => if ok then WLoopHead else Connecting
    case WLoopHead => if p.writerRunning then Popping else WFinished
    case Popping => if reply.Some? then Holding(reply.value) else WFinished
    case Holding(e) => if Outcome(e, p.tables, ok).fate.Dropped? then Connecting else WLoopHead
    case _ => p.writer
  }

  function WriterApply(p: Program, ok: bool, reply: Option<Event>): Program {
    p.(writer := WriterNext(p, ok, reply),
       handled := if p.writer.Holding? then p.handled + [Outcome(p.writer.e, p.tables, ok)] else p.handled)
  }

  function ProgramApply(p: Program, step: Step, reply: Option<Event>): Program {
    match step
    case RaiseExit => p.(exitRequested := true)
    case MainStep(ok) => MainApply(p, ok)
    case ProducerStep(w, ok, batch) => ProducerApply(p, w, ok, batch)
    case WriterStep(ok) => WriterApply(p, ok, reply)
    case QueueStep(_, _) => p
  }

  // The event that a pop is about to return, if it returns one.
  function PopReply(pc: Q.Pc): Option<Event> {
    if (pc.Signalling? || pc.Leaving? || pc.Returned?) && pc.reply.Got? then Some(pc.reply.e) else None
  }

  ghost function Apply(s: State, step: Step): State
    requires Enabled(s, step)
  {
    var x := QueuePart(s.p, step);
    State(if x.None? then s.q else Q.Apply(s.q, x.value.t, x.value.a),
          ProgramApply(s.p, step, PopReply(s.q.pcs[WRITER])))
  }

  ghost predicate ValidRun(s: State, run: seq<Step>)
    decreases |run|
  {
    run == [] || (Enabled(s, run[0]) && ValidRun(Apply(s, run[0]), run[1..]))
  }

  ghost function After(s: State, run: seq<Step>): State
    requires ValidRun(s, run)
    decreases |run|
  {
    if run == [] then s else After(Apply(s, run[0]), run[1..])
  }

  /// The invariant

  function KindOf(op: Q.Op): nat {
    match op case Push(_) => 0 case Pop => 1 case Close => 2
  }

  // A thread is inside a queue function exactly while its program is at a call of it, and then
  // it is the function that this thread uses: 0 push, 1 pop, 2 close.
  predicate ThreadInv(pc: Q.Pc, inside: bool, kind: nat) {
    match pc
    case Idle => !inside
    case WakingPoppers => inside && kind == 2
    case WakingPushers => inside && kind == 2
    case _ => inside && KindOf(pc.op) == kind
  }

  predicate AtTheirCalls(q: Q.State, p: Program) {
    && |q.pcs| == 4
    && ThreadInv(q.pcs[MAIN], p.main.InClose?, 2)
    && ThreadInv(q.pcs[WEBSOCKET], p.websocket.Pushing?, 0)
    && ThreadInv(q.pcs[POLLER], p.poller.Pushing?, 0)
    && ThreadInv(q.pcs[WRITER], p.writer.Popping?, 1)
  }

  predicate CallsInv(s: State) { AtTheirCalls(s.q, s.p) }

  // The queue function that a thread calls.
  function OwnCall(t: nat): nat {
    if t == MAIN then 2 else if t == WRITER then 1 else 0
  }

  // How far main has got.
  function Rank(m: MainPc): nat {
    match m
    case StartWriter => 0 case StartWebsocket => 1 case StartPoller => 2 case Waiting => 3
    case StopWebsocket => 4 case JoinWebsocket => 5 case StopPoller => 6 case JoinPoller => 7
    case CallClose => 8 case InClose => 9 case StopWriter => 10 case JoinWriter => 11
    case Destroy => 12 case Exited => 13
  }

  // A producer that main starts in the step out of rank `start` and joins at rank `join`. One
  // that failed to set up is not joined, but it has finished.
  predicate ProducerInv(rank: nat, pc: ProducerPc, use: bool, running: bool, start: nat, join: nat) {
    && (rank <= start ==> pc.NotStarted? && !running)
    && (Alive(pc) ==> use && rank <= join && (running <==> rank != join))
    && (rank == join ==> !pc.NotStarted?)
    && (running ==> Alive(pc))
  }

  predicate WriterInv(rank: nat, pc: WriterPc, running: bool, closed: bool) {
    && (rank == 0 ==> pc.WNotStarted?)
    && (1 <= rank <= 11 ==> !pc.WNotStarted?)
    && (pc.WFinished? ==> closed)
    && (12 <= rank ==> pc.WNotStarted? || pc.WFinished?)
    && (1 <= rank <= 11 ==> (running <==> rank != 11))
  }

  predicate LifetimesInv(p: Program, closed: bool) {
    var rank := Rank(p.main);
    && ProducerInv(rank, p.websocket, p.useWebsocket, p.websocketRunning, 1, 5)
    && ProducerInv(rank, p.poller, p.usePoller, p.pollerRunning, 2, 7)
    && (p.useWebsocket && 2 <= rank < 12 ==> !p.websocket.NotStarted?)
    && WriterInv(rank, p.writer, p.writerRunning, closed)
    // The queue is closed by main, after the producers.
    && (closed ==> 9 <= rank)
    && (10 <= rank < 12 ==> closed)
    && (4 <= rank ==> p.exitRequested || p.writer.WNotStarted?)
    && (p.exitRequested ==> 3 <= rank)
  }

  // The event that the writer has taken out of the ring but not yet dealt with.
  function InHand(s: State): seq<Event>
    requires |s.q.pcs| == 4
  {
    if s.p.writer.Holding? then [s.p.writer.e]
    else if PopReply(s.q.pcs[WRITER]).Some? then [PopReply(s.q.pcs[WRITER]).value]
    else []
  }

  function Taken(handled: seq<Handled>): seq<Event> {
    EventsIn(handled, (h: Handled) => h.e)
  }

  // The kinds that are not stored.
  predicate Unstored(kind: EventKind, tables: Tables) {
    || kind == Unknown
    || (kind == PumpFun && tables.pumpfun == "")
    || (kind == Raydium && tables.raydium == "")
  }

  // An event is skipped exactly if its kind is not stored; else the insert went to the table of its
  // kind.
  predicate RightlyHandled(h: Handled, tables: Tables) {
    && (h.fate == Skipped <==> Unstored(h.e.kind, tables))
    && (h.fate == Skipped <==> h.table == None)
    && (h.e.kind == PumpFun && h.table != None ==> h.table == Some(tables.pumpfun))
    && (h.e.kind == Raydium && h.table != None ==> h.table == Some(tables.raydium))
  }

  ghost predicate FatesInv(p: Program) {
    forall i | 0 <= i < |p.handled| :: RightlyHandled(p.handled[i], p.tables)
  }

  ghost predicate TakenInv(s: State)
    requires |s.q.pcs| == 4
  {
    s.q.popped == Taken(s.p.handled) + InHand(s)
  }

  ghost predicate Inv(s: State) {
    && Q.Inv(s.q)
    && CallsInv(s)
    && LifetimesInv(s.p, s.q.ring.closed)
    && TakenInv(s)
    && FatesInv(s.p)
  }

  lemma InitInv(capacity: nat, useWebsocket: bool, usePoller: bool, tables: Tables)
    requires 0 < capacity
    ensures Inv(Init(capacity, useWebsocket, usePoller, tables))
  {
    Q.InitInv(4, capacity);
    EmptyRingContents(capacity);
  }

  // What one step of the queue means for the thread that takes it and for the other threads.
  lemma QueueStepFacts(q: Q.State, t: nat, a: Q.Action)
    requires |q.pcs| == 4 && Q.Enabled(q, t, a)
    ensures var q' := Q.Apply(q, t, a);
            && |q'.pcs| == 4
            && (forall u, inside, kind | 0 <= u < 4 && ThreadInv(q.pcs[u], inside, kind) ::
                  (u == t && a.Call? && kind == KindOf(a.op) ==> ThreadInv(q'.pcs[u], true, kind))
                  && (u == t && a.Return? ==> ThreadInv(q'.pcs[u], false, kind))
                  && (u != t || (!a.Call? && !a.Return?) ==> ThreadInv(q'.pcs[u], inside, kind)))
            && (q.ring.closed ==> q'.ring.closed)
            && (q'.ring.closed ==> q.ring.closed || q.pcs[t] == Q.Testing(Q.Close))
  {
  }

  predicate InsideAfter(inside: bool, x: Option<Q.Step>, t: nat) {
    if x.Some? && x.value.t == t && x.value.a.Call? then true
    else if x.Some? && x.value.t == t && x.value.a.Return? then false
    else inside
  }

  // The program counters follow the calls and returns.
  predicate Follows(p: Program, p': Program, x: Option<Q.Step>) {
    && p'.main.InClose? == InsideAfter(p.main.InClose?, x, MAIN)
    && p'.websocket.Pushing? == InsideAfter(p.websocket.Pushing?, x, WEBSOCKET)
    && p'.poller.Pushing? == InsideAfter(p.poller.Pushing?, x, POLLER)
    && p'.writer.Popping? == InsideAfter(p.writer.Popping?, x, WRITER)
  }

  lemma MainFollowsQueue(p: Program, ok: bool, closed: bool)
    requires LifetimesInv(p, closed)
    ensures Follows(p, MainApply(p, ok), QueuePart(p, MainStep(ok)))
  {
  }

  lemma ProgramFollowsQueue(p: Program, step: Step, reply: Option<Event>, closed: bool)
    requires ProgramEnabled(p, step) && LifetimesInv(p, closed)
    ensures Follows(p, ProgramApply(p, step, reply), QueuePart(p, step))
  {
    if step.MainStep? {
      MainFollowsQueue(p, step.ok, closed);
    }
  }

  lemma ThreadFollows(q: Q.State, t: nat, a: Q.Action, u: nat, inside: bool)
    requires |q.pcs| == 4 && u < 4 && Q.Enabled(q, t, a) && ThreadInv(q.pcs[u], inside, OwnCall(u))
    requires a.Call? ==> OwnCall(t) == KindOf(a.op)
    ensures |Q.Apply(q, t, a).pcs| == 4
    ensures ThreadInv(Q.Apply(q, t, a).pcs[u], InsideAfter(inside, Some(Q.Step(t, a)), u), OwnCall(u))
  {
    QueueStepFacts(q, t, a);
  }

  lemma QueueKeepsCalls(q: Q.State, t: nat, a: Q.Action, p: Program, p': Program)
    requires AtTheirCalls(q, p) && Q.Enabled(q, t, a) && Follows(p, p', Some(Q.Step(t, a)))
    requires a.Call? ==> OwnCall(t) == KindOf(a.op)
    ensures AtTheirCalls(Q.Apply(q, t, a), p')
  {
    ThreadFollows(q, t, a, MAIN, p.main.InClose?);
    ThreadFollows(q, t, a, WEBSOCKET, p.websocket.Pushing?);
    ThreadFollows(q, t, a, POLLER, p.poller.Pushing?);
    ThreadFollows(q, t, a, WRITER, p.writer.Popping?);
  }

  lemma CallsAreTheirOwn(p: Program, step: Step)
    requires ProgramEnabled(p, step)
    ensures var x := QueuePart(p, step); x.Some? && x.value.a.Call? ==> OwnCall(x.value.t) == KindOf(x.value.a.op)
  {
  }

  lemma StepKeepsCalls(s: State, step: Step)
    requires Enabled(s, step) && CallsInv(s) && LifetimesInv(s.p, s.q.ring.closed)
    ensures CallsInv(Apply(s, step))
  {
    var x := QueuePart(s.p, step);
    ProgramFollowsQueue(s.p, step, PopReply(s.q.pcs[WRITER]), s.q.ring.closed);
    if x.Some? {
      CallsAreTheirOwn(s.p, step);
      QueueKeepsCalls(s.q, x.value.t, x.value.a, s.p, Apply(s, step).p);
    }
  }

  // A returned close has closed the queue, and a pop that returns no event has found it closed.
  predicate ReturnsInv(s: State)
    requires |s.q.pcs| == 4
  {
    && (s.q.pcs[MAIN].Returned? ==> s.q.ring.closed)
    && (s.q.pcs[WRITER].Returned? && PopReply(s.q.pcs[WRITER]).None? ==> s.q.ring.closed)
  }

  lemma ReturnsMean(s: State)
    requires Q.Inv(s.q) && CallsInv(s)
    ensures ReturnsInv(s)
  {
    assert Q.PcInv(s.q.ring, s.q.pcs[MAIN]);
    assert Q.PcInv(s.q.ring, s.q.pcs[WRITER]);
  }

  lemma MainKeepsLifetimes(p: Program, ok: bool, closed: bool)
    requires ProgramEnabled(p, MainStep(ok)) && LifetimesInv(p, closed)
    requires p.main.InClose? ==> closed
    ensures LifetimesInv(MainApply(p, ok), closed)
  {
  }

  lemma ProducerKeepsLifetimes(p: Program, w: bool, ok: bool, batch: seq<Event>, closed: bool)
    requires Alive(Producer(p, w)) && LifetimesInv(p, closed)
    ensures LifetimesInv(ProducerApply(p, w, ok, batch), closed)
  {
  }

  lemma WriterKeepsLifetimes(p: Program, ok: bool, reply: Option<Event>, closed: bool)
    requires !p.writer.WNotStarted? && !p.writer.WFinished? && LifetimesInv(p, closed)
    requires p.writer.Popping? && reply.None? ==> closed
    ensures LifetimesInv(WriterApply(p, ok, reply), closed)
  {
  }

  lemma ProgramKeepsLifetimes(p: Program, step: Step, reply: Option<Event>, closed: bool)
    requires ProgramEnabled(p, step) && LifetimesInv(p, closed)
    requires step.MainStep? && p.main.InClose? ==> closed
    requires step.WriterStep? && p.writer.Popping? && reply.None? ==> closed
    ensures LifetimesInv(ProgramApply(p, step, reply), closed)
  {
    match step
    case MainStep(ok) => MainKeepsLifetimes(p, ok, closed);
    case ProducerStep(w, ok, batch) => ProducerKeepsLifetimes(p, w, ok, batch, closed);
    case WriterStep(ok) => WriterKeepsLifetimes(p, ok, reply, closed);
    case RaiseExit =>
    case QueueStep(_, _) =>
  }

  // The queue is closed by a step inside main's call of close, and stays closed.
  lemma OnlyMainCloses(s: State, step: Step)
    requires Enabled(s, step) && CallsInv(s)
    ensures s.q.ring.closed ==> Apply(s, step).q.ring.closed
    ensures Apply(s, step).q.ring.closed && !s.q.ring.closed ==> step.QueueStep? && s.p.main.InClose?
  {
    var x := QueuePart(s.p, step);
    if x.Some? {
      QueueStepFacts(s.q, x.value.t, x.value.a);
    }
  }

  lemma ClosingKeepsLifetimes(p: Program)
    requires LifetimesInv(p, false) && p.main.InClose?
    ensures LifetimesInv(p, true)
  {
  }

  lemma StepKeepsLifetimes(s: State, step: Step)
    requires Enabled(s, step) && CallsInv(s) && LifetimesInv(s.p, s.q.ring.closed) && ReturnsInv(s)
    ensures var s' := Apply(s, step); LifetimesInv(s'.p, s'.q.ring.closed)
  {
    ProgramKeepsLifetimes(s.p, step, PopReply(s.q.pcs[WRITER]), s.q.ring.closed);
    OnlyMainCloses(s, step);
    if Apply(s, step).q.ring.closed && !s.q.ring.closed {
      ClosingKeepsLifetimes(s.p);
    }
  }

  predicate NeverPops(pc: Q.Pc) {
    ThreadInv(pc, !pc.Idle?, 0) || ThreadInv(pc, !pc.Idle?, 2)
  }

  // How a queue step moves an event into the writer's hand.
  lemma QueueStepTakes(q: Q.State, t: nat, a: Q.Action)
    requires |q.pcs| == 4 && Q.Enabled(q, t, a)
    requires ThreadInv(q.pcs[WRITER], !q.pcs[WRITER].Idle?, 1)
    requires forall u | 0 <= u < 3 :: NeverPops(q.pcs[u])
    ensures var q' := Q.Apply(q, t, a);
            if t == WRITER && a.Update? && PopReply(q'.pcs[WRITER]).Some? then
              q'.popped == q.popped + [PopReply(q'.pcs[WRITER]).value] && PopReply(q.pcs[WRITER]).None?
            else
              q'.popped == q.popped && ((t == WRITER && a.Return?) || PopReply(q'.pcs[WRITER]) == PopReply(q.pcs[WRITER]))
  {
  }

  lemma MainHandlesNothing(p: Program, ok: bool)
    ensures MainApply(p, ok).handled == p.handled
  {
    match p.main
    case StartWriter =>
    case StartWebsocket =>
    case StartPoller =>
    case _ =>
  }

  lemma MainKeepsTables(p: Program, ok: bool)
    ensures MainApply(p, ok).tables == p.tables
  {
  }

  lemma OnlyTheWriterHandles(p: Program, step: Step, reply: Option<Event>)
    requires !step.WriterStep?
    ensures var p' := ProgramApply(p, step, reply); p'.handled == p.handled && p'.tables == p.tables
  {
    if step.MainStep? {
      MainHandlesNothing(p, step.ok);
      MainKeepsTables(p, step.ok);
    }
  }

  lemma OnlyTheWriterHolds(p: Program, step: Step, reply: Option<Event>, closed: bool)
    requires !step.WriterStep? && LifetimesInv(p, closed)
    ensures var p' := ProgramApply(p, step, reply); p'.writer == p.writer || (!p'.writer.Holding? && !p.writer.Holding?)
  {
  }

  lemma WriterStepTakes(s: State, ok: bool)
    requires Enabled(s, WriterStep(ok)) && CallsInv(s) && TakenInv(s)
    ensures |Apply(s, WriterStep(ok)).q.pcs| == 4 && TakenInv(Apply(s, WriterStep(ok)))
  {
    var s' := Apply(s, WriterStep(ok));
    var x := QueuePart(s.p, WriterStep(ok));
    if x.Some? {
      QueueStepTakes(s.q, x.value.t, x.value.a);
    }
    if s.p.writer.Holding? {
      assert Taken(s'.p.handled) == Taken(s.p.handled) + [s.p.writer.e];
    }
  }

  lemma StepKeepsTaken(s: State, step: Step)
    requires Enabled(s, step) && CallsInv(s) && LifetimesInv(s.p, s.q.ring.closed) && TakenInv(s)
    ensures |Apply(s, step).q.pcs| == 4 && TakenInv(Apply(s, step))
  {
    var s' := Apply(s, step);
    StepKeepsCalls(s, step);
    var x := QueuePart(s.p, step);
    if x.Some? {
      QueueStepTakes(s.q, x.value.t, x.value.a);
    }
    if step.WriterStep? {
      WriterStepTakes(s, step.ok);
    } else {
      OnlyTheWriterHandles(s.p, step, PopReply(s.q.pcs[WRITER]));
      OnlyTheWriterHolds(s.p, step, PopReply(s.q.pcs[WRITER]), s.q.ring.closed);
    }
  }

  lemma StepKeepsFates(p: Program, step: Step, reply: Option<Event>)
    requires FatesInv(p)
    ensures FatesInv(ProgramApply(p, step, reply))
  {
    if !step.WriterStep? {
      OnlyTheWriterHandles(p, step, reply);
    }
  }

  lemma StepKeepsQueue(s: State, step: Step)
    requires Q.Inv(s.q) && Enabled(s, step)
    ensures Q.Inv(Apply(s, step).q) && |Apply(s, step).q.pcs| == 4
    ensures Apply(s, step).q.ring.Capacity() == s.q.ring.Capacity()
  {
    var x := QueuePart(s.p, step);
    if x.Some? {
      Q.StepKeepsInv(s.q, x.value.t, x.value.a);
      Q.StepKeepsRing(s.q, x.value.t, x.value.a);
    }
  }

  lemma StepKeepsInv(s: State, step: Step)
    requires Inv(s) && Enabled(s, step)
    ensures Inv(Apply(s, step))
  {
    StepKeepsQueue(s, step);
    StepKeepsCalls(s, step);
    ReturnsMean(s);
    StepKeepsLifetimes(s, step);
    StepKeepsTaken(s, step);
    StepKeepsFates(s.p, step, PopReply(s.q.pcs[WRITER]));
  }

  lemma {:induction false} RunKeepsInv(s: State, run: seq<Step>)
    requires Inv(s) && ValidRun(s, run)
    ensures Inv(After(s, run))
    ensures After(s, run).q.ring.Capacity() == s.q.ring.Capacity()
    decreases |run|
  {
    if run != [] {
      StepKeepsInv(s, run[0]);
      StepKeepsQueue(s, run[0]);
      RunKeepsInv(Apply(s, run[0]), run[1..]);
    }
  }

  ghost predicate Reachable(s: State, capacity: nat) {
    exists useWebsocket, usePoller, tables, run ::
      ValidRun(Init(capacity, useWebsocket, usePoller, tables), run)
      && s == After(Init(capacity, useWebsocket, usePoller, tables), run)
  }

  predicate Rejected(pc: Q.Pc) {
    (pc.Signalling? || pc.Leaving? || pc.Returned?) && pc.reply.Rejected?
  }

  ghost predicate NothingRejected(q: Q.State) {
    && (forall u | 0 <= u < |q.pcs| :: !Rejected(q.pcs[u]))
    && (forall i | 0 <= i < |q.finished| :: !q.finished[i].reply.Rejected?)
  }

  lemma QueueRejectsNothing(q: Q.State, t: nat, a: Q.Action)
    requires NothingRejected(q) && Q.Enabled(q, t, a)
    requires !(q.pcs[t].Testing? && q.pcs[t].op.Push? && q.ring.closed)
    ensures NothingRejected(Q.Apply(q, t, a))
  {
  }

  lemma StepRejectsNothing(s: State, step: Step)
    requires CallsInv(s) && LifetimesInv(s.p, s.q.ring.closed) && NothingRejected(s.q) && Enabled(s, step)
    ensures NothingRejected(Apply(s, step).q)
  {
    var x := QueuePart(s.p, step);
    if x.Some? {
      if s.q.pcs[x.value.t].Testing? && s.q.pcs[x.value.t].op.Push? {
        assert s.p.websocket.Pushing? || s.p.poller.Pushing?;
      }
      QueueRejectsNothing(s.q, x.value.t, x.value.a);
    }
  }

  lemma {:induction false} RunRejectsNothing(s: State, run: seq<Step>)
    requires Inv(s) && NothingRejected(s.q) && ValidRun(s, run)
    ensures NothingRejected(After(s, run).q)
    decreases |run|
  {
    if run != [] {
      StepKeepsInv(s, run[0]);
      StepRejectsNothing(s, run[0]);
      RunRejectsNothing(Apply(s, run[0]), run[1..]);
    }
  }

  lemma ReachableInv(s: State, capacity: nat)
    requires 0 < capacity && Reachable(s, capacity)
    ensures Inv(s) && NothingRejected(s.q) && s.q.ring.Capacity() == capacity
  {
    var w, h, tables, run :|
      ValidRun(Init(capacity, w, h, tables), run) && s == After(Init(capacity, w, h, tables), run);
    InitInv(capacity, w, h, tables);
    EmptyRingContents(capacity);
    RunKeepsInv(Init(capacity, w, h, tables), run);
    RunRejectsNothing(Init(capacity, w, h, tables), run);
  }

  /// No push is refused

  // main joins both producers before it closes the queue.
  lemma ProducersEndBeforeClose(s: State, capacity: nat)
    requires 0 < capacity && Reachable(s, capacity) && s.q.ring.closed
    ensures !Alive(s.p.websocket) && !Alive(s.p.poller)
    ensures |s.q.pcs| == 4 && s.q.pcs[WEBSOCKET].Idle? && s.q.pcs[POLLER].Idle?
  {
    ReachableInv(s, capacity);
  }

  // So every push of every run is accepted.
  lemma EveryPushIsAccepted(s: State, capacity: nat, f: Q.Finished)
    requires 0 < capacity && Reachable(s, capacity) && f in s.q.finished && f.op.Push?
    ensures f.reply.Accepted?
  {
    ReachableInv(s, capacity);
    var i :| 0 <= i < |s.q.finished| && s.q.finished[i] == f;
    assert Q.ReplyInv(s.q.ring, f.op, f.reply);
  }

  // main destroys the queue only when all other threads have finished or were never started: no
  // thread is inside a queue function, none sleeps on its condition variables, the mutex is free,
  // and nothing can happen any more once main has left.
  lemma DestroyIsSafe(s: State, capacity: nat)
    requires 0 < capacity && Reachable(s, capacity)
    requires s.p.main.Destroy? || s.p.main.Exited?
    ensures s.q.owner.None? && forall u | 0 <= u < |s.q.pcs| :: s.q.pcs[u].Idle?
    ensures !Alive(s.p.websocket) && !Alive(s.p.poller) && (s.p.writer.WNotStarted? || s.p.writer.WFinished?)
    ensures s.p.main.Exited? ==> forall step :: !Enabled(s, step)
  {
    ReachableInv(s, capacity);
    assert s.q.pcs[MAIN].Idle? && s.q.pcs[WEBSOCKET].Idle? && s.q.pcs[POLLER].Idle? && s.q.pcs[WRITER].Idle?;
  }

  /// Conservation

  // `a` is what is left of `b` after leaving out some of its elements.
  ghost predicate Subsequence(a: seq<Event>, b: seq<Event>) {
    a == [] || (b != [] && ((a[0] == b[0] && Subsequence(a[1..], b[1..])) || Subsequence(a, b[1..])))
  }

  function WithFate(handled: seq<Handled>, fate: Fate): seq<Event> {
    if handled == [] then []
    else (if handled[0].fate == fate then [handled[0].e] else []) + WithFate(handled[1..], fate)
  }

  lemma {:induction false} FateIsSubsequence(handled: seq<Handled>, rest: seq<Event>, fate: Fate)
    ensures Subsequence(WithFate(handled, fate), Taken(handled) + rest)
  {
    if handled != [] {
      FateIsSubsequence(handled[1..], rest, fate);
      var b := Taken(handled) + rest;
      assert b[1..] == Taken(handled[1..]) + rest;
      if handled[0].fate == fate {
        assert WithFate(handled, fate)[1..] == WithFate(handled[1..], fate);
      } else {
        assert WithFate(handled, fate) == WithFate(handled[1..], fate);
      }
    }
  }

  lemma {:induction false} FatesAddUp(handled: seq<Handled>)
    ensures |WithFate(handled, Inserted)| + |WithFate(handled, Skipped)| + |WithFate(handled, Dropped)| == |handled|
  {
    if handled != [] {
      FatesAddUp(handled[1..]);
    }
  }

  // Every accepted event is in exactly one place: already dealt with, in the writer's hand, or
  // queued, in this order; an event that was dealt with was skipped exactly if its kind is not stored,
  // else inserted into the table of its kind or dropped by a failed insert there; and the inserts
  // happen in the order of the pushes.
  lemma Conservation(s: State, capacity: nat)
    requires 0 < capacity && Reachable(s, capacity)
    ensures |s.q.pcs| == 4 && s.q.ring.WellFormed()
    ensures Q.Events(s.q.pushed) == Taken(s.p.handled) + InHand(s) + s.q.ring.Contents()
    ensures |s.q.pushed| == |WithFate(s.p.handled, Inserted)| + |WithFate(s.p.handled, Skipped)|
                            + |WithFate(s.p.handled, Dropped)| + |InHand(s)| + s.q.ring.size
    ensures forall i | 0 <= i < |s.p.handled| :: RightlyHandled(s.p.handled[i], s.p.tables)
    ensures Subsequence(WithFate(s.p.handled, Inserted), Q.Events(s.q.pushed))
  {
    ReachableInv(s, capacity);
    FatesAddUp(s.p.handled);
    var rest := InHand(s) + s.q.ring.Contents();
    FateIsSubsequence(s.p.handled, rest, Inserted);
    assert Q.Events(s.q.pushed) == Taken(s.p.handled) + rest;
  }

  // What is lost at shutdown is what the writer had not taken: it stops at its own flag, not at
  // the end of the queue.
  lemma AbandonedAtExit(s: State, capacity: nat)
    requires 0 < capacity && Reachable(s, capacity) && s.p.main.Exited?
    ensures s.q.ring.WellFormed()
    ensures Q.Events(s.q.pushed) == Taken(s.p.handled) + s.q.ring.Contents()
  {
    ReachableInv(s, capacity);
    assert InHand(s) == [];
  }
}
