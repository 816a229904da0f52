/** The messages that the program is meant for, built from their parts, and the events they hold. It
    says what the walk of LogParser has to find without walking a tree. */
module Reports {
  import opened EventTypes
  import opened Text
  import opened JsonTree
  import Base64

  /// The parts of a message

  // A line of a log array: one with data, one without, or something that is not a text.
  datatype Log =
    | Data(before: string, spaces: string, payload: string)
    | Empty(before: string, spaces: string)
    | Other(text: string)
    | NotText(item: Json)

  datatype Report = Report(slot: Option<nat>, signature: Option<string>, program: Option<string>, logs: seq<Log>)

  datatype Value = One(report: Report) | Many(reports: seq<Report>)

  // The answer to a request, with or without a context around its values, and a notification.
  datatype Message =
    | Response(context: Option<nat>, value: Value)
    | Results(reports: seq<Report>)
    | Notification(context: Option<nat>, value: Value)

  // No "Program data:" starts in the text before the one that is meant.
  ghost predicate FirstAfter(before: string) {
    forall i: nat | i < |before| :: !OccursAt(before + "Program data:", "Program data:", i)
  }

  ghost predicate LegalLog(l: Log) {
    match l
    case Data(before, spaces, payload) => FirstAfter(before) && AllSpace(spaces) && payload != "" && !IsSpace(payload[0])
    case Empty(before, spaces) => FirstAfter(before) && AllSpace(spaces)
    case Other(text) => forall i: nat :: !OccursAt(text, "Program data:", i)
    case NotText(item) => !item.Str?
  }

  ghost predicate LegalReport(r: Report) {
    forall l | l in r.logs :: LegalLog(l)
  }

  function ReportsOf(m: Message): seq<Report> {
    if m.Results? then m.reports else if m.value.One? then [m.value.report] else m.value.reports
  }

  ghost predicate LegalMessage(m: Message) {
    forall r | r in ReportsOf(m) :: LegalReport(r)
  }

  /// Their JSON

  function Member(key: string, j: Option<Json>): seq<(string, Json)> {
    if j.Some? then [(key, j.value)] else []
  }

  function LogText(l: Log): Json {
    match l
    case Data(before, spaces, payload) => Str(before + ("Program data:" + (spaces + payload)))
    case Empty(before, spaces) => Str(before + ("Program data:" + (spaces + "")))
    case Other(text) => Str(text)
    case NotText(item) => item
  }

  function LogTexts(logs: seq<Log>): seq<Json> {
    if logs == [] then [] else [LogText(logs[0])] + LogTexts(logs[1..])
  }

  function ANumber(n: Option<nat>): Option<Json> { if n.Some? then Some(Number(n.value)) else None }
  function AString(s: Option<string>): Option<Json> { if s.Some? then Some(Str(s.value)) else None }

  function ReportJson(r: Report): Json {
    Object(Member("slot", ANumber(r.slot))
           + (Member("signature", AString(r.signature))
              + (Member("programId", AString(r.program)) + Member("logs", Some(Array(LogTexts(r.logs)))))))
  }

  function ReportJsons(reports: seq<Report>): seq<Json> {
    if reports == [] then [] else [ReportJson(reports[0])] + ReportJsons(reports[1..])
  }

  function ContextJson(context: Option<nat>): Option<Json> {
    if context.Some? then Some(Object(Member("slot", Some(Number(context.value))))) else None
  }

  function ResultJson(context: Option<nat>, value: Value): Json {
    Object(Member("context", ContextJson(context))
           + Member("value", Some(if value.One? then ReportJson(value.report) else Array(ReportJsons(value.reports)))))
  }

  function MessageJson(m: Message): Json {
    match m
    case Response(context, value) => Object(Member("result", Some(ResultJson(context, value))))
    case Results(reports) => Object(Member("result", Some(Array(ReportJsons(reports)))))
    case Notification(context, value) =>
      Object(Member("params", Some(Object(Member("result", Some(ResultJson(context, value)))))))
  }

  /// Their events

  // A line with data, in its report.
  datatype Line = Line(log: Log, report: Report)

  predicate Decodable(l: Log) {
    l.Data? && Base64.Decode(l.payload).Some?
  }

  function LinesIn(r: Report, logs: seq<Log>): seq<Line> {
    if logs == [] then []
    else (if Decodable(logs[0]) then [Line(logs[0], r)] else []) + LinesIn(r, logs[1..])
  }

  function LinesInAll(reports: seq<Report>): seq<Line> {
    if reports == [] then [] else LinesIn(reports[0], reports[0].logs) + LinesInAll(reports[1..])
  }

  // The decodable lines of a message in document order.
  function DataLines(m: Message): seq<Line> { LinesInAll(ReportsOf(m)) }

  function ContextOf(m: Message): Option<nat> {
    if m.Results? then None else m.context
  }

  function Cut(s: string, n: nat): string {
    if |s| <= n then s else s[..n]
  }

  // An event is that of a line if it has the slot of the line's report, else that of the context,
  // else 0; the report's signature and program, cut to their buffers; the kind of the configured
  // program that the report names, where no name means the first of them; and the decoded data.
  predicate ComesFrom(e: Event, line: Line, context: Option<nat>, programs: Programs) {
    var r := line.report;
    var id := OrElse(r.program, programs.pumpfun);
    && e.slot == (if r.slot.Some? then r.slot.value else if context.Some? then context.value else 0)
    && e.signature == (if r.signature.Some? then Cut(r.signature.value, 127) else "")
    && e.programId == (if r.program.Some? then Cut(r.program.value, 63) else "")
    && (e.kind == PumpFun <==> programs.pumpfun != "" && CaseEq(id, programs.pumpfun))
    && (e.kind == Raydium <==> e.kind != PumpFun && programs.raydium != "" && CaseEq(id, programs.raydium))
    && line.log.Data? && Base64.Decode(line.log.payload) == Some(e.data)
  }

  predicate AllComeFrom(es: seq<Event>, lines: seq<Line>, context: Option<nat>, programs: Programs) {
    |es| == |lines| && forall i | 0 <= i < |es| :: ComesFrom(es[i], lines[i], context, programs)
  }

  lemma OneEventPerLine(a: Event, b: Event, line: Line, context: Option<nat>, programs: Programs)
    requires ComesFrom(a, line, context, programs) && ComesFrom(b, line, context, programs)
    ensures a == b
  {
  }

  lemma AllComeFromConcat(a: seq<Event>, x: seq<Line>, b: seq<Event>, y: seq<Line>, context: Option<nat>, programs: Programs)
    requires AllComeFrom(a, x, context, programs) && AllComeFrom(b, y, context, programs)
    ensures AllComeFrom(a + b, x + y, context, programs)
  {
  }
}
