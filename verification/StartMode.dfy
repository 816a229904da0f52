/** Which producers the program runs: those of its mode, and the poller in place of a WebSocket
    client that cannot be started. */
module StartMode {
  import opened EventTypes
  import opened Pipeline

  // `websocket` and `poller` are what the configured mode asks for.
  predicate ModeInv(p: Program, websocket: bool, poller: bool) {
    && (Rank(p.main) <= 1 ==> p.useWebsocket == websocket && p.usePoller == poller)
    && (p.useWebsocket ==> websocket)
    && (p.usePoller <==> poller || (websocket && !p.useWebsocket))
    && (!p.websocket.NotStarted? ==> p.useWebsocket)
    && (!p.poller.NotStarted? ==> p.usePoller)
  }

  lemma StepKeepsMode(p: Program, step: Step, reply: Option<Event>, closed: bool, websocket: bool, poller: bool)
    requires ProgramEnabled(p, step) && LifetimesInv(p, closed) && ModeInv(p, websocket, poller)
    ensures ModeInv(ProgramApply(p, step, reply), websocket, poller)
  {
  }

  lemma {:induction false} RunKeepsMode(s: State, run: seq<Step>, websocket: bool, poller: bool)
    requires Inv(s) && ValidRun(s, run) && ModeInv(s.p, websocket, poller)
    ensures Inv(After(s, run)) && ModeInv(After(s, run).p, websocket, poller)
    decreases |run|
  {
    if run != [] {
      StepKeepsInv(s, run[0]);
      StepKeepsMode(s.p, run[0], PopReply(s.q.pcs[WRITER]), s.q.ring.closed, websocket, poller);
      RunKeepsMode(Apply(s, run[0]), run[1..], websocket, poller);
    }
  }

  // When main has reached its loop, the WebSocket client runs only if the mode asks for it, and the
  // poller is in use if and only if the mode asks for it or the client it asks for could not be
  // started; a producer that is not in use has not been started.
  lemma ProducersOfMode(capacity: nat, websocket: bool, poller: bool, tables: Tables, run: seq<Step>)
    requires 0 < capacity && ValidRun(Init(capacity, websocket, poller, tables), run)
    requires After(Init(capacity, websocket, poller, tables), run).p.main.Waiting?
    ensures var p := After(Init(capacity, websocket, poller, tables), run).p;
            && (!p.websocket.NotStarted? ==> websocket)
            && (p.usePoller <==> poller || (websocket && p.websocket.NotStarted?))
            && (!p.poller.NotStarted? ==> p.usePoller)
  {
    InitInv(capacity, websocket, poller, tables);
    RunKeepsMode(Init(capacity, websocket, poller, tables), run, websocket, poller);
  }
}
