/** The walk of src/parser.c over a JSON-RPC message: it pushes the events of the message's
    "Program data:" lines. JSON text parsing is left to the JSON library; the walk starts from a
    tree. */
module LogParser {
  import opened EventTypes
  import opened Text
  import opened Lists
  import opened JsonTree
  import opened Reports
  import Base64

  // program_to_kind
  function KindOf(programId: string, programs: Programs): EventKind {
    if programs.pumpfun != "" && CaseEq(programId, programs.pumpfun) then PumpFun
    else if programs.raydium != "" && CaseEq(programId, programs.raydium) then Raydium
    else Unknown
  }

  /// What a message contains, as a flat list

  datatype LogLine = LogLine(text: string, slot: nat, signature: Option<string>, programId: Option<string>)

  // An object with log lines, and the slot of the context around it if there is one.
  datatype Entry = Entry(value: Json, context: Option<nat>)

  // The innermost slot there is: the value's own, else the context's, else 0.
  function InnermostSlot(e: Entry): nat {
    OrElse(AsNumber(Get(e.value, "slot")), OrElse(e.context, 0))
  }

  function TextOf(item: Json): seq<string> { if item.Str? then [item.s] else [] }

  function Texts(items: seq<Json>): seq<string> { FlatMap(TextOf, items) }

  function LabelOne(text: string, e: Entry): LogLine {
    LogLine(text, InnermostSlot(e), AsString(Get(e.value, "signature")), AsString(Get(e.value, "programId")))
  }

  function Label(texts: seq<string>, e: Entry): seq<LogLine> {
    seq(|texts|, i requires 0 <= i < |texts| => LabelOne(texts[i], e))
  }

  function LinesOf(e: Entry): seq<LogLine> {
    var logs := Get(e.value, "logs");
    if IsArray(logs) then Label(Texts(logs.value.items), e) else []
  }

  function AllLines(entries: seq<Entry>): seq<LogLine> { FlatMap(LinesOf, entries) }

  function EntriesOf(items: seq<Json>, context: Option<nat>): seq<Entry> {
    seq(|items|, i requires 0 <= i < |items| => Entry(items[i], context))
  }

  function ContextSlot(result: Json): Option<nat> {
    var context := Get(result, "context");
    if IsObject(context) then AsNumber(Get(context.value, "slot")) else None
  }

  function ResultEntries(result: Json): seq<Entry> {
    var value := Get(result, "value");
    if IsObject(value) then [Entry(value.value, ContextSlot(result))]
    else if IsArray(value) then EntriesOf(value.value.items, ContextSlot(result))
    else []
  }

  function MessageEntries(root: Json): seq<Entry> {
    var result := Get(root, "result");
    var params := Get(root, "params");
    if IsObject(result) then ResultEntries(result.value)
    else if IsArray(result) then EntriesOf(result.value.items, None)
    else if IsObject(params) && IsObject(Get(params.value, "result")) then ResultEntries(Get(params.value, "result").value)
    else []
  }

  const MARKER := "Program data:"

  // The payload text of a line: what follows the first marker, if anything does.
  function Payload(line: string): (r: Option<string>) {
    var at := Find(line, MARKER);
    if at.None? then None
    else
      var rest := SkipSpaces(line[at.value + |MARKER|..]);
      if rest == "" then None else Some(rest)
  }

  function EventOf(l: LogLine, programs: Programs): Option<Event> {
    var payload := Payload(l.text);
    if payload.None? then None
    else
      var data := Base64.Decode(payload.value);
      if data.None? then None
      else Some(Event(KindOf(OrElse(l.programId, programs.pumpfun), programs),
                      Truncate(OrElse(l.programId, ""), 64),
                      Truncate(OrElse(l.signature, ""), 128),
                      l.slot,
                      data.value))
  }

  function EventsAt(l: LogLine, programs: Programs): seq<Event> {
    if EventOf(l, programs).Some? then [EventOf(l, programs).value] else []
  }

  function EventsOf(lines: seq<LogLine>, programs: Programs): seq<Event> {
    FlatMap((l: LogLine) => EventsAt(l, programs), lines)
  }

  // The events of a message in document order.
  function Candidates(root: Json, programs: Programs): seq<Event> {
    EventsOf(AllLines(MessageEntries(root)), programs)
  }

  lemma EventsOfConcat(a: seq<LogLine>, b: seq<LogLine>, programs: Programs)
    ensures EventsOf(a + b, programs) == EventsOf(a, programs) + EventsOf(b, programs)
  {
    FlatMapConcat((l: LogLine) => EventsAt(l, programs), a, b);
  }

  /// The events of a message that is built from its parts

  lemma LookupMember(key: string, j: Option<Json>, rest: seq<(string, Json)>, wanted: string)
    ensures Lookup(Member(key, j) + rest, wanted) == if key == wanted && j.Some? then j else Lookup(rest, wanted)
  {
    if j.Some? {
      assert (Member(key, j) + rest)[1..] == rest;
    } else {
      assert Member(key, j) + rest == rest;
    }
  }

  lemma LookupOnly(key: string, j: Option<Json>, wanted: string)
    ensures Lookup(Member(key, j), wanted) == if key == wanted then j else None
  {
    LookupMember(key, j, [], wanted);
    assert Member(key, j) + [] == Member(key, j);
  }

  lemma ReportLookup(r: Report, wanted: string)
    ensures Get(ReportJson(r), wanted)
         == if wanted == "slot" && r.slot.Some? then ANumber(r.slot)
            else if wanted == "signature" && r.signature.Some? then AString(r.signature)
            else if wanted == "programId" && r.program.Some? then AString(r.program)
            else if wanted == "logs" then Some(Array(LogTexts(r.logs)))
            else None
  {
    var logs := Member("logs", Some(Array(LogTexts(r.logs))));
    var programs := Member("programId", AString(r.program)) + logs;
    var signatures := Member("signature", AString(r.signature)) + programs;
    LookupMember("slot", ANumber(r.slot), signatures, wanted);
    LookupMember("signature", AString(r.signature), programs, wanted);
    LookupMember("programId", AString(r.program), logs, wanted);
    LookupOnly("logs", Some(Array(LogTexts(r.logs))), wanted);
  }

  // The payload is found behind the first marker and the white space after it.
  lemma PayloadBehind(before: string, spaces: string, payload: string)
    requires FirstAfter(before) && AllSpace(spaces) && (payload == "" || !IsSpace(payload[0]))
    ensures Payload(before + ("Program data:" + (spaces + payload))) == if payload == "" then None else Some(payload)
  {
    var text := before + ("Program data:" + (spaces + payload));
    var head := before + MARKER;
    assert text[|before|..|before| + |MARKER|] == MARKER;
    assert OccursAt(text, MARKER, |before|);
    forall i: nat | i < |before|
      ensures !OccursAt(text, MARKER, i)
    {
      assert !OccursAt(head, MARKER, i);
      assert i + |MARKER| <= |head| && text[i..i + |MARKER|] == head[i..i + |MARKER|];
    }
    assert text[|before| + |MARKER|..] == spaces + payload;
    SkipLeading(spaces, payload);
  }

  lemma NoPayload(text: string)
    requires forall i: nat :: !OccursAt(text, MARKER, i)
    ensures Payload(text) == None
  {
  }

  lemma LogPayload(l: Log)
    requires LegalLog(l) && !l.NotText?
    ensures LogText(l).Str? && Payload(LogText(l).s) == if l.Data? then Some(l.payload) else None
  {
    match l
    case Data(before, spaces, payload) => PayloadBehind(before, spaces, payload);
    case Empty(before, spaces) => PayloadBehind(before, spaces, "");
    case Other(text) => NoPayload(text);
  }

  lemma ReportLabel(r: Report, context: Option<nat>, text: string)
    ensures LabelOne(text, Entry(ReportJson(r), context))
         == LogLine(text, if r.slot.Some? then r.slot.value else if context.Some? then context.value else 0,
                    r.signature, r.program)
  {
    ReportLookup(r, "slot");
    ReportLookup(r, "signature");
    ReportLookup(r, "programId");
  }

  lemma OneLogMatches(r: Report, l: Log, context: Option<nat>, programs: Programs)
    requires LegalLog(l) && !l.NotText?
    ensures LogText(l).Str?
    ensures AllComeFrom(EventsAt(LabelOne(LogText(l).s, Entry(ReportJson(r), context)), programs),
                        if Decodable(l) then [Line(l, r)] else [], context, programs)
  {
    LogPayload(l);
    ReportLabel(r, context, LogText(l).s);
  }

  // One more text in front of a log array.
  lemma FrontText(text: string, rest: seq<string>, e: Entry, programs: Programs)
    ensures EventsOf(Label([text] + rest, e), programs)
         == EventsAt(LabelOne(text, e), programs) + EventsOf(Label(rest, e), programs)
  {
    assert Label([text] + rest, e) == [LabelOne(text, e)] + Label(rest, e);
    FlatMapFront((x: LogLine) => EventsAt(x, programs), LabelOne(text, e), Label(rest, e));
  }

  lemma {:induction false} LogsMatch(r: Report, logs: seq<Log>, context: Option<nat>, programs: Programs)
    requires forall l | l in logs :: LegalLog(l)
    ensures AllComeFrom(EventsOf(Label(Texts(LogTexts(logs)), Entry(ReportJson(r), context)), programs),
                        LinesIn(r, logs), context, programs)
    decreases |logs|
  {
    if logs != [] {
      var e := Entry(ReportJson(r), context);
      var l, rest := logs[0], LogTexts(logs[1..]);
      assert LegalLog(l);
      LogsMatch(r, logs[1..], context, programs);
      FlatMapFront(TextOf, LogText(l), rest);
      if l.NotText? {
        assert [] + Texts(rest) == Texts(rest) && [] + LinesIn(r, logs[1..]) == LinesIn(r, logs[1..]);
      } else {
        OneLogMatches(r, l, context, programs);
        FrontText(LogText(l).s, Texts(rest), e, programs);
        AllComeFromConcat(EventsAt(LabelOne(LogText(l).s, e), programs), if Decodable(l) then [Line(l, r)] else [],
                          EventsOf(Label(Texts(rest), e), programs), LinesIn(r, logs[1..]), context, programs);
      }
    }
  }

  lemma ReportMatches(r: Report, context: Option<nat>, programs: Programs)
    requires LegalReport(r)
    ensures AllComeFrom(EventsOf(LinesOf(Entry(ReportJson(r), context)), programs), LinesIn(r, r.logs), context, programs)
  {
    ReportLookup(r, "logs");
    LogsMatch(r, r.logs, context, programs);
  }

  // One more entry in front of a list.
  lemma FrontEntry(j: Json, rest: seq<Json>, context: Option<nat>, programs: Programs)
    ensures EventsOf(AllLines(EntriesOf([j] + rest, context)), programs)
         == EventsOf(LinesOf(Entry(j, context)), programs) + EventsOf(AllLines(EntriesOf(rest, context)), programs)
  {
    var e := Entry(j, context);
    assert EntriesOf([j] + rest, context) == [e] + EntriesOf(rest, context);
    FlatMapFront(LinesOf, e, EntriesOf(rest, context));
    EventsOfConcat(LinesOf(e), AllLines(EntriesOf(rest, context)), programs);
  }

  lemma {:induction false} ReportsMatch(reports: seq<Report>, context: Option<nat>, programs: Programs)
    requires forall r | r in reports :: LegalReport(r)
    ensures AllComeFrom(EventsOf(AllLines(EntriesOf(ReportJsons(reports), context)), programs),
                        LinesInAll(reports), context, programs)
    decreases |reports|
  {
    if reports != [] {
      var r, rest := reports[0], ReportJsons(reports[1..]);
      assert LegalReport(r);
      ReportMatches(r, context, programs);
      ReportsMatch(reports[1..], context, programs);
      FrontEntry(ReportJson(r), rest, context, programs);
      AllComeFromConcat(EventsOf(LinesOf(Entry(ReportJson(r), context)), programs), LinesIn(r, r.logs),
                        EventsOf(AllLines(EntriesOf(rest, context)), programs), LinesInAll(reports[1..]), context, programs);
    }
  }

  lemma SingleEntry(e: Entry)
    ensures AllLines([e]) == LinesOf(e)
  {
    FlatMapOne(LinesOf, e);
  }

  lemma ResultLookup(context: Option<nat>, value: Value)
    ensures ContextSlot(ResultJson(context, value)) == context
    ensures Get(ResultJson(context, value), "value")
         == Some(if value.One? then ReportJson(value.report) else Array(ReportJsons(value.reports)))
  {
    var values := Member("value", Some(if value.One? then ReportJson(value.report) else Array(ReportJsons(value.reports))));
    LookupMember("context", ContextJson(context), values, "context");
    LookupMember("context", ContextJson(context), values, "value");
    LookupOnly("value", Some(if value.One? then ReportJson(value.report) else Array(ReportJsons(value.reports))), "context");
    LookupOnly("value", Some(if value.One? then ReportJson(value.report) else Array(ReportJsons(value.reports))), "value");
    if context.Some? {
      LookupOnly("slot", Some(Number(context.value)), "slot");
    }
  }

  lemma ResultMatches(context: Option<nat>, value: Value, programs: Programs)
    requires forall r | r in (if value.One? then [value.report] else value.reports) :: LegalReport(r)
    ensures AllComeFrom(EventsOf(AllLines(ResultEntries(ResultJson(context, value))), programs),
                        LinesInAll(if value.One? then [value.report] else value.reports), context, programs)
  {
    ResultLookup(context, value);
    if value.One? {
      var r := value.report;
      assert r in [r];
      ReportMatches(r, context, programs);
      SingleEntry(Entry(ReportJson(r), context));
      assert LinesInAll([r]) == LinesIn(r, r.logs) + LinesInAll([]);
      assert LinesIn(r, r.logs) + [] == LinesIn(r, r.logs);
    } else {
      ReportsMatch(value.reports, context, programs);
    }
  }

  // The events that the walk finds in such a message are those of its decodable lines, in document
  // order.
  lemma BuiltMessage(m: Message, programs: Programs)
    requires LegalMessage(m)
    ensures AllComeFrom(Candidates(MessageJson(m), programs), DataLines(m), ContextOf(m), programs)
  {
    match m
    case Response(context, value) =>
      ResultMatches(context, value, programs);
      LookupOnly("result", Some(ResultJson(context, value)), "result");
    case Results(reports) =>
      ReportsMatch(reports, None, programs);
      LookupOnly("result", Some(Array(ReportJsons(reports))), "result");
    case Notification(context, value) =>
      ResultMatches(context, value, programs);
      var params := Object(Member("result", Some(ResultJson(context, value))));
      LookupOnly("result", Some(ResultJson(context, value)), "result");
      LookupOnly("params", Some(params), "params");
      LookupOnly("params", Some(params), "result");
  }

  /// What comes of a list of events when the queue may close in between

  // The queue as a producer sees it: the accepted events, and how many more will be accepted
  // before it closes (never, if None).
  datatype Delivery = Delivery(accepted: seq<Event>, openFor: Option<nat>, count: nat, highest: nat)

  function Higher(slot: nat, e: Event): nat {
    if e.slot > slot then e.slot else slot
  }

  function Deliver(d: Delivery, e: Event): Delivery {
    if d.openFor == Some(0) then d
    else
      Delivery(d.accepted + [e],
               if d.openFor.Some? then Some(d.openFor.value - 1) else None,
               d.count + 1,
               Higher(d.highest, e))
  }

  function DeliverAll(d: Delivery, es: seq<Event>): Delivery
    decreases |es|
  {
    if es == [] then d else DeliverAll(Deliver(d, es[0]), es[1..])
  }

  lemma {:induction false} DeliverConcat(d: Delivery, a: seq<Event>, b: seq<Event>)
    ensures DeliverAll(d, a + b) == DeliverAll(DeliverAll(d, a), b)
    decreases |a|
  {
    if a == [] {
      assert a + b == b;
    } else {
      DeliverConcat(Deliver(d, a[0]), a[1..], b);
      assert (a + b)[1..] == a[1..] + b;
    }
  }

  function MaxSlot(start: nat, es: seq<Event>): nat
    decreases |es|
  {
    if es == [] then start else MaxSlot(Higher(start, es[0]), es[1..])
  }

  lemma {:induction false} MaxSlotIsMax(start: nat, es: seq<Event>)
    ensures start <= MaxSlot(start, es) && forall i | 0 <= i < |es| :: es[i].slot <= MaxSlot(start, es)
    ensures MaxSlot(start, es) == start || exists i :: 0 <= i < |es| && es[i].slot == MaxSlot(start, es)
    decreases |es|
  {
    if es != [] {
      MaxSlotIsMax(Higher(start, es[0]), es[1..]);
      assert forall i | 1 <= i < |es| :: es[i] == es[1..][i - 1];
    }
  }

  function Accepted(openFor: Option<nat>, n: nat): (k: nat)
    ensures k <= n
  {
    if openFor.Some? && openFor.value < n then openFor.value else n
  }

  function RoomLeft(openFor: Option<nat>, n: nat): Option<nat> {
    if openFor.Some? then Some(openFor.value - Accepted(openFor, n)) else None
  }

  lemma TakeFirst(es: seq<Event>, k: nat)
    requires 0 < k <= |es|
    ensures es[..k] == [es[0]] + es[1..][..k - 1] && es[..k][1..] == es[1..][..k - 1]
  {
  }

  lemma {:induction false} ClosedDelivers(d: Delivery, es: seq<Event>)
    requires es == [] || d.openFor == Some(0)
    ensures DeliverAll(d, es) == d
    decreases |es|
  {
    if es != [] {
      ClosedDelivers(d, es[1..]);
    }
  }

  // Delivery cuts the list at the close and nowhere else; the count and the highest slot are
  // those of the part before the cut.
  lemma {:induction false} DeliveryIsPrefix(d: Delivery, es: seq<Event>)
    ensures DeliverAll(d, es) == Delivery(d.accepted + es[..Accepted(d.openFor, |es|)],
                                          RoomLeft(d.openFor, |es|),
                                          d.count + Accepted(d.openFor, |es|),
                                          MaxSlot(d.highest, es[..Accepted(d.openFor, |es|)]))
    decreases |es|
  {
    var k := Accepted(d.openFor, |es|);
    if es == [] || d.openFor == Some(0) {
      ClosedDelivers(d, es);
      assert es[..k] == [];
    } else {
      var e, rest := es[0], es[1..];
      DeliveryIsPrefix(Deliver(d, e), rest);
      assert k == Accepted(Deliver(d, e).openFor, |rest|) + 1;
      TakeFirst(es, k);
      assert d.accepted + [e] + rest[..k - 1] == d.accepted + es[..k];
    }
  }

  lemma OneLine(l: LogLine, programs: Programs, d: Delivery)
    ensures DeliverAll(d, EventsOf([l], programs))
         == if EventOf(l, programs).None? then d else Deliver(d, EventOf(l, programs).value)
  {
    FlatMapOne((x: LogLine) => EventsAt(x, programs), l);
    var e := EventOf(l, programs);
    if e.Some? {
      assert EventsOf([l], programs) == [e.value];
      assert [e.value][1..] == [];
    }
  }

  /// The walk

  class QueueEnd {
    var accepted: seq<Event>
    var openFor: Option<nat>

    constructor (openFor: Option<nat>)
      ensures accepted == [] && this.openFor == openFor
    {
      accepted, this.openFor := [], openFor;
    }

    method Push(e: Event) returns (ok: bool)
      modifies this
      ensures ok <==> old(openFor) != Some(0)
      ensures accepted == if ok then old(accepted) + [e] else old(accepted)
      ensures openFor == if ok && old(openFor).Some? then Some(old(openFor).value - 1) else old(openFor)
    {
      if openFor == Some(0) {
        return false;
      }
      accepted := accepted + [e];
      if openFor.Some? {
        openFor := Some(openFor.value - 1);
      }
      return true;
    }
  }

  // The scan of enqueue_event for the text after the marker.
  method FindPayload(line: string) returns (r: Option<string>)
    ensures r == Payload(line)
  {
    var at := Find(line, MARKER);
    if at.None? {
      return None;
    }
    var p := at.value + |MARKER|;
    while p < |line| && IsSpace(line[p])
      invariant p <= |line|
      invariant SkipSpaces(line[p..]) == SkipSpaces(line[at.value + |MARKER|..])
    {
      p := p + 1;
    }
    assert SkipSpaces(line[p..]) == line[p..];
    if p == |line| {
      return None;
    }
    return Some(line[p..]);
  }

  lemma NextItem(items: seq<Json>, i: nat, e: Entry, programs: Programs, d: Delivery)
    requires i < |items|
    ensures !items[i].Str? ==> Texts(items[..i + 1]) == Texts(items[..i])
    ensures items[i].Str? ==>
              DeliverAll(d, EventsOf(Label(Texts(items[..i + 1]), e), programs))
              == DeliverAll(DeliverAll(d, EventsOf(Label(Texts(items[..i]), e), programs)),
                            EventsOf([LabelOne(items[i].s, e)], programs))
  {
    assert items[..i + 1] == items[..i] + [items[i]];
    assert [items[i]][1..] == [];
    FlatMapConcat(TextOf, items[..i], [items[i]]);
    var t, t' := Texts(items[..i]), Texts([items[i]]);
    assert Label(t + t', e) == Label(t, e) + Label(t', e);
    if items[i].Str? {
      assert t' == [items[i].s];
      var l := LabelOne(items[i].s, e);
      assert Label(t', e) == [l];
      EventsOfConcat(Label(t, e), [l], programs);
      DeliverConcat(d, EventsOf(Label(t, e), programs), EventsOf([l], programs));
    } else {
      assert t' == [] && t + [] == t;
    }
  }

  lemma NextEntry(items: seq<Json>, i: nat, context: Option<nat>, programs: Programs, d: Delivery)
    requires i < |items|
    ensures DeliverAll(d, EventsOf(AllLines(EntriesOf(items[..i + 1], context)), programs))
         == DeliverAll(DeliverAll(d, EventsOf(AllLines(EntriesOf(items[..i], context)), programs)),
                       EventsOf(LinesOf(Entry(items[i], context)), programs))
  {
    var e := Entry(items[i], context);
    var before := EntriesOf(items[..i], context);
    assert EntriesOf(items[..i + 1], context) == before + [e];
    FlatMapConcat(LinesOf, before, [e]);
    SingleEntry(e);
    EventsOfConcat(AllLines(before), LinesOf(e), programs);
    DeliverConcat(d, EventsOf(AllLines(before), programs), EventsOf(LinesOf(e), programs));
  }

  class ParserContext {
    const programs: Programs
    const queue: QueueEnd
    var highestSlot: nat
    var eventCount: nat

    function View(): Delivery
      reads this, queue
    {
      Delivery(queue.accepted, queue.openFor, eventCount, highestSlot)
    }

    constructor (programs: Programs, queue: QueueEnd, slot: nat)
      ensures this.programs == programs && this.queue == queue
      ensures View() == Delivery(queue.accepted, queue.openFor, 0, slot)
    {
      this.programs, this.queue, highestSlot, eventCount := programs, queue, slot, 0;
    }

    method EnqueueEvent(l: LogLine)
      modifies this, queue
      ensures View() == DeliverAll(old(View()), EventsOf([l], programs))
    {
      OneLine(l, programs, View());
      var payload := FindPayload(l.text);
      if payload.None? {
        return;
      }
      var data := Base64.Decode(payload.value);
      if data.None? {
        return;
      }
      var e := Event(KindOf(OrElse(l.programId, programs.pumpfun), programs),
                     Truncate(OrElse(l.programId, ""), 64),
                     Truncate(OrElse(l.signature, ""), 128),
                     l.slot,
                     data.value);
      var ok := queue.Push(e);
      if ok {
        eventCount := eventCount + 1;
        if e.slot > highestSlot {
          highestSlot := e.slot;
        }
      }
    }

    method ProcessLogsArray(logs: Option<Json>, e: Entry, slot: nat)
      requires logs == Get(e.value, "logs") && slot == InnermostSlot(e)
      modifies this, queue
      ensures View() == DeliverAll(old(View()), EventsOf(LinesOf(e), programs))
    {
      if !IsArray(logs) {
        return;
      }
      var items := logs.value.items;
      for i := 0 to |items|
        invariant View() == DeliverAll(old(View()), EventsOf(Label(Texts(items[..i]), e), programs))
      {
        NextItem(items, i, e, programs, old(View()));
        if items[i].Str? {
          EnqueueEvent(LogLine(items[i].s, slot, AsString(Get(e.value, "signature")), AsString(Get(e.value, "programId"))));
        }
      }
      assert items[..|items|] == items;
    }

    method ProcessValueObject(e: Entry, fallbackSlot: nat)
      requires e.value.Object? ==> InnermostSlot(e) == OrElse(AsNumber(Get(e.value, "slot")), fallbackSlot)
      modifies this, queue
      ensures View() == DeliverAll(old(View()), EventsOf(LinesOf(e), programs))
    {
      if !e.value.Object? {
        return;
      }
      var slot := fallbackSlot;
      var item := AsNumber(Get(e.value, "slot"));
      if item.Some? {
        slot := item.value;
      }
      ProcessLogsArray(Get(e.value, "logs"), e, slot);
    }

    method ProcessEntries(items: seq<Json>, context: Option<nat>, slot: nat)
      requires slot == OrElse(context, 0)
      modifies this, queue
      ensures View() == DeliverAll(old(View()), EventsOf(AllLines(EntriesOf(items, context)), programs))
    {
      for i := 0 to |items|
        invariant View() == DeliverAll(old(View()), EventsOf(AllLines(EntriesOf(items[..i], context)), programs))
      {
        NextEntry(items, i, context, programs, old(View()));
        ProcessValueObject(Entry(items[i], context), slot);
      }
      assert items[..|items|] == items;
    }

    method ProcessResultObject(result: Json)
      modifies this, queue
      ensures View() == DeliverAll(old(View()), EventsOf(AllLines(ResultEntries(result)), programs))
    {
      var value := Get(result, "value");
      var context := Get(result, "context");
      var slot := 0;
      if IsObject(context) {
        var item := AsNumber(Get(context.value, "slot"));
        if item.Some? {
          slot := item.value;
        }
      }
      if IsObject(value) {
        var inner := AsNumber(Get(value.value, "slot"));
        if inner.Some? {
          slot := inner.value;
        }
        SingleEntry(Entry(value.value, ContextSlot(result)));
        ProcessValueObject(Entry(value.value, ContextSlot(result)), slot);
      } else if IsArray(value) {
        ProcessEntries(value.value.items, ContextSlot(result), slot);
      }
    }
  }

  // yurei_parser_handle_message. `root` is None when the text is not JSON. The events of the
  // message are pushed in document order up to the close of the queue; the return value is their
  // number, and the slot handed back the highest of the incoming one and theirs. For a message that
  // is built from its parts, they are the events of its decodable lines.
  method HandleMessage(root: Option<Json>, programs: Programs, queue: QueueEnd, slotIn: nat)
    returns (processed: int, slotOut: nat)
    modifies queue
    ensures root.None? ==> processed == -1 && slotOut == slotIn && unchanged(queue)
    ensures root.Some? ==>
              var es := Candidates(root.value, programs);
              var k := Accepted(old(queue.openFor), |es|);
              && processed == k
              && queue.accepted == old(queue.accepted) + es[..k]
              && slotOut == MaxSlot(slotIn, es[..k])
              && queue.openFor == RoomLeft(old(queue.openFor), |es|)
    ensures forall m | LegalMessage(m) && root == Some(MessageJson(m)) ::
              var lines, n := DataLines(m), |old(queue.accepted)|;
              && n <= |queue.accepted| && queue.accepted[..n] == old(queue.accepted)
              && processed == Accepted(old(queue.openFor), |lines|)
              && AllComeFrom(queue.accepted[n..], lines[..processed], ContextOf(m), programs)
  {
    if root.None? {
      return -1, slotIn;
    }
    var ctx := new ParserContext(programs, queue, slotIn);
    ghost var start := ctx.View();
    var result := Get(root.value, "result");
    var params := Get(root.value, "params");
    if IsObject(result) {
      ctx.ProcessResultObject(result.value);
    } else if IsArray(result) {
      ctx.ProcessEntries(result.value.items, None, 0);
    } else if IsObject(params) {
      var paramsResult := Get(params.value, "result");
      if IsObject(paramsResult) {
        ctx.ProcessResultObject(paramsResult.value);
      }
    }
    DeliveryIsPrefix(start, Candidates(root.value, programs));
    processed, slotOut := ctx.eventCount, ctx.highestSlot;
    forall m | LegalMessage(m) && root == Some(MessageJson(m))
      ensures AllComeFrom(Candidates(root.value, programs), DataLines(m), ContextOf(m), programs)
    {
      BuiltMessage(m, programs);
    }
  }
}
