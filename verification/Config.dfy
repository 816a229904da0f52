/** Loading the configuration (src/config.c): defaults, then the lines of a file, then the
    environment. */
module Config {
  import opened EventTypes
  import opened Text
  import opened Decimal

  /// The settings

  datatype Field =
    | RpcEndpoint | WssEndpoint | RpcApiKey | RpcMode
    | PollIntervalMs | WsBackoffMs | WsBackoffMaxMs | QueueCapacity | BatchSize | RateLimitRps
    | LogColor
    | PumpfunProgram | RaydiumProgram | PumpfunTable | RaydiumTable | PgConninfo | LogLevel

  datatype Value = Words(s: string) | Count(n: nat) | Switch(on: bool)

  // What a field can hold: a text that fits a buffer, an unsigned number below a limit, a bool.
  datatype Kind = Buffer(size: nat) | Unsigned(limit: nat) | Boolean

  const UINT32_LIMIT := 0x1_0000_0000
  const SIZE_LIMIT := 0x1_0000_0000_0000_0000

  function KindOf(f: Field): (k: Kind)
    ensures k.Buffer? ==> 0 < k.size <= 512
    ensures k.Unsigned? ==> k.limit == UINT32_LIMIT || k.limit == SIZE_LIMIT
  {
    match f
    case RpcEndpoint | WssEndpoint => Buffer(256)
    case RpcApiKey => Buffer(128)
    case RpcMode | LogLevel => Buffer(16)
    case PumpfunProgram | RaydiumProgram | PumpfunTable | RaydiumTable => Buffer(64)
    case PgConninfo => Buffer(512)
    case QueueCapacity => Unsigned(SIZE_LIMIT)
    case LogColor => Boolean
    case PollIntervalMs | WsBackoffMs | WsBackoffMaxMs | BatchSize | RateLimitRps => Unsigned(UINT32_LIMIT)
  }

  predicate Holds(k: Kind, v: Value) {
    match k
    case Buffer(size) => v.Words? && |v.s| < size
    case Unsigned(limit) => v.Count? && v.n < limit
    case Boolean => v.Switch?
  }

  function Default(f: Field): Value {
    match f
    case RpcEndpoint => Words("https://mainnet.helius-rpc.com")
    case WssEndpoint => Words("wss://mainnet.helius-rpc.com")
    case RpcApiKey => Words("")
    case RpcMode => Words("ws")
    case PollIntervalMs => Count(1000)
    case WsBackoffMs => Count(1000)
    case WsBackoffMaxMs => Count(60000)
    case QueueCapacity => Count(1024)
    case BatchSize => Count(20)
    case RateLimitRps => Count(10)
    case LogColor => Switch(true)
    case PumpfunProgram => Words("6EF8rrecthR5Dkzon8Nwu78hRvfCKubJ14M5uBEwF6P")
    case RaydiumProgram => Words("675kPX9MHTjS2zt1qfr1NYHuzeLXfQM9H24wFSUt1Mp8")
    case PumpfunTable => Words("pumpfun_trades")
    case RaydiumTable => Words("raydium_swaps")
    case PgConninfo => Words("host=127.0.0.1 port=5432 dbname=yurei user=yurei password=secret")
    case LogLevel => Words("info")
  }

  function KeyOf(f: Field): string {
    match f
    case RpcEndpoint => "YUREI_RPC_ENDPOINT"
    case WssEndpoint => "YUREI_WSS_ENDPOINT"
    case RpcApiKey => "YUREI_RPC_API_KEY"
    case RpcMode => "YUREI_RPC_MODE"
    case PollIntervalMs => "YUREI_POLL_INTERVAL_MS"
    case WsBackoffMs => "YUREI_WS_BACKOFF_MS"
    case WsBackoffMaxMs => "YUREI_WS_BACKOFF_MAX_MS"
    case QueueCapacity => "YUREI_QUEUE_CAPACITY"
    case BatchSize => "YUREI_BATCH_SIZE"
    case RateLimitRps => "YUREI_RATE_LIMIT"
    case LogColor => "YUREI_LOG_COLOR"
    case PumpfunProgram => "YUREI_PUMPFUN_PROGRAM"
    case RaydiumProgram => "YUREI_RAYDIUM_PROGRAM"
    case PumpfunTable => "YUREI_PUMPFUN_TABLE"
    case RaydiumTable => "YUREI_RAYDIUM_TABLE"
    case PgConninfo => "YUREI_PG_CONN"
    case LogLevel => "YUREI_LOG_LEVEL"
  }

  const PG_ALIAS := "YUREI_PG_CONNINFO"

  // Keys are matched without regard to case; one field has two.
  predicate Names(key: string, f: Field) {
    CaseEq(key, KeyOf(f)) || (f == PgConninfo && CaseEq(key, PG_ALIAS))
  }

  // What tells the keys apart whatever the case of their letters.
  function Tag(key: string): (nat, char, char) {
    (|key|, if |key| > 6 then ToLower(key[6]) else ' ', if |key| > 10 then ToLower(key[10]) else ' ')
  }

  function FieldWithTag(t: (nat, char, char)): Option<Field> {
    match t.0
    case 13 => Some(PgConninfo)
    case 14 => Some(RpcMode)
    case 15 => Some(if t.2 == 'c' then LogColor else LogLevel)
    case 16 => Some(if t.1 == 'b' then BatchSize else RateLimitRps)
    case 17 => Some(if t.1 == 'p' then PgConninfo else RpcApiKey)
    case 18 => Some(if t.1 == 'r' then RpcEndpoint else WssEndpoint)
    case 19 => Some(if t.1 == 'w' then WsBackoffMs else if t.1 == 'p' then PumpfunTable else RaydiumTable)
    case 20 => Some(QueueCapacity)
    case 21 => Some(if t.1 == 'p' then PumpfunProgram else RaydiumProgram)
    case 22 => Some(PollIntervalMs)
    case 23 => Some(WsBackoffMaxMs)
    case _ => None
  }

  lemma TagOfKey(f: Field)
    ensures FieldWithTag(Tag(KeyOf(f))) == Some(f)
    ensures FieldWithTag(Tag(PG_ALIAS)) == Some(PgConninfo)
  {
    match f
    case RpcEndpoint => assert KeyOf(f)[6] == 'R';
    case WssEndpoint => assert KeyOf(f)[6] == 'W';
    case WsBackoffMs => assert KeyOf(f)[6] == 'W';
    case BatchSize => assert KeyOf(f)[6] == 'B';
    case RateLimitRps => assert KeyOf(f)[6] == 'R';
    case LogColor => assert KeyOf(f)[10] == 'C';
    case LogLevel => assert KeyOf(f)[10] == 'L';
    case PumpfunProgram => assert KeyOf(f)[6] == 'P';
    case RaydiumProgram => assert KeyOf(f)[6] == 'R';
    case PumpfunTable => assert KeyOf(f)[6] == 'P';
    case RaydiumTable => assert KeyOf(f)[6] == 'R';
    case _ =>
  }

  lemma SameTag(a: string, b: string)
    requires CaseEq(a, b)
    ensures Tag(a) == Tag(b)
  {
  }

  // No key names two fields.
  lemma NamesOneField(key: string, f: Field, g: Field)
    requires Names(key, f) && Names(key, g)
    ensures f == g
  {
    TagOfKey(f);
    TagOfKey(g);
    SameTag(key, if CaseEq(key, KeyOf(f)) then KeyOf(f) else PG_ALIAS);
    SameTag(key, if CaseEq(key, KeyOf(g)) then KeyOf(g) else PG_ALIAS);
  }

  /// One assignment

  datatype Assignment = Assignment(key: string, value: string)

  function StripQuotes(value: string, size: nat): string
    requires 0 < size
  {
    if |value| >= 2 && value[0] == value[|value| - 1] && (value[0] == '"' || value[0] == '\'')
    then Truncate(value[1..|value| - 1], size)
    else value
  }

  predicate IsYes(s: string) {
    CaseEq(s, "1") || CaseEq(s, "true") || CaseEq(s, "yes")
  }

  // The value a text stands for; None if it is not a number where one is needed. A number too
  // large for the field keeps its low 32 bits.
  function Parse(k: Kind, s: string): Option<Value>
    requires k.Buffer? ==> 0 < k.size
    requires k.Unsigned? ==> 0 < k.limit
  {
    match k
    case Buffer(size) => Some(Words(Truncate(s, size)))
    case Unsigned(limit) => if Strtoul(s).Some? then Some(Count(Strtoul(s).value % limit)) else None
    case Boolean => Some(Switch(IsYes(s)))
  }

  // What an assignment gives to a field, if anything.
  function Given(a: Assignment, f: Field): Option<Value> {
    if Names(a.key, f) then Parse(KindOf(f), StripQuotes(a.value, 512)) else None
  }

  // The last valid assignment decides.
  function LastValid(start: Value, f: Field, assignments: seq<Assignment>): Value {
    if assignments == [] then start
    else
      var n := |assignments| - 1;
      var given := Given(assignments[n], f);
      if given.Some? then given.value else LastValid(start, f, assignments[..n])
  }

  type Settings = map<Field, Value>

  // All fields after a list of assignments.
  function After(m: Settings, assignments: seq<Assignment>): Settings {
    map f | f in m :: LastValid(m[f], f, assignments)
  }

  /// The lines of a file

  // What fgets reads into 512 bytes: up to a newline, or 511 characters.
  function ChunkLength(text: string): (n: nat)
    ensures n <= |text| && n < 512 && (text != "" ==> 0 < n)
  {
    var newline := FindChar(text, '\n');
    var line := if newline.Some? then newline.value + 1 else |text|;
    if line < 512 then line else 511
  }

  function TrimEnd(s: string): (r: string)
    ensures r == "" || !IsSpace(r[|r| - 1])
    ensures r <= s
  {
    if s != "" && IsSpace(s[|s| - 1]) then TrimEnd(s[..|s| - 1]) else s
  }

  function Trimmed(s: string): string {
    TrimEnd(SkipSpaces(s))
  }

  function LineAssignments(line: string): seq<Assignment> {
    var clean := Trimmed(line);
    if clean == "" || clean[0] == '#' || FindChar(clean, '=').None? then []
    else
      var equals := FindChar(clean, '=').value;
      [Assignment(Trimmed(clean[..equals]), Trimmed(clean[equals + 1..]))]
  }

  function FileAssignments(text: string): seq<Assignment> {
    if text == "" then []
    else
      var n := ChunkLength(text);
      LineAssignments(text[..n]) + FileAssignments(text[n..])
  }

  /// The environment

  const ENVIRONMENT_KEYS := [
    "YUREI_RPC_ENDPOINT", "YUREI_WSS_ENDPOINT", "YUREI_RPC_API_KEY", "YUREI_RPC_MODE",
    "YUREI_POLL_INTERVAL_MS", "YUREI_WS_BACKOFF_MS", "YUREI_WS_BACKOFF_MAX_MS",
    "YUREI_QUEUE_CAPACITY", "YUREI_BATCH_SIZE", "YUREI_RATE_LIMIT", "YUREI_LOG_COLOR",
    "YUREI_PUMPFUN_PROGRAM", "YUREI_RAYDIUM_PROGRAM", "YUREI_PG_CONN", "YUREI_PG_CONNINFO",
    "YUREI_PUMPFUN_TABLE", "YUREI_RAYDIUM_TABLE", "YUREI_LOG_LEVEL"
  ]

  function EnvironmentAssignments(environment: map<string, string>, keys: seq<string>): seq<Assignment> {
    if keys == [] then []
    else
      var n := |keys| - 1;
      var before := EnvironmentAssignments(environment, keys[..n]);
      if keys[n] in environment && environment[keys[n]] != "" then before + [Assignment(keys[n], environment[keys[n]])]
      else before
  }

  /// The loader

  // trim: the two loops of the source, then a copy cut to the buffer.
  method Trim(input: string, size: nat) returns (r: string)
    requires 0 < size
    ensures r == Truncate(Trimmed(input), size)
  {
    var start := 0;
    while start < |input| && IsSpace(input[start])
      invariant start <= |input|
      invariant SkipSpaces(input[start..]) == SkipSpaces(input)
    {
      start := start + 1;
    }
    var rest := input[start..];
    var end := |rest|;
    assert rest[..end] == rest;
    while end > 0 && IsSpace(rest[end - 1])
      invariant end <= |rest|
      invariant TrimEnd(rest[..end]) == TrimEnd(rest)
    {
      assert rest[..end][..end - 1] == rest[..end - 1];
      end := end - 1;
    }
    var len := end;
    if len >= size {
      len := size - 1;
    }
    assert rest[..end][..len] == rest[..len];
    return rest[..len];
  }

  lemma TrimmedIsShorter(s: string)
    ensures |Trimmed(s)| <= |s|
  {
    SkipIsSuffix(s);
  }

  // On the buffers of 512 bytes it is called with, nothing is cut.
  method TrimWhole(input: string) returns (r: string)
    requires |input| < 512
    ensures r == Trimmed(input) && |r| < 512
  {
    TrimmedIsShorter(input);
    r := Trim(input, 512);
  }

  lemma NamesAtMostOne(key: string)
    ensures forall f, g | Names(key, f) && Names(key, g) :: f == g
  {
    forall f, g | Names(key, f) && Names(key, g)
      ensures f == g
    {
      NamesOneField(key, f, g);
    }
  }

  // The chain of comparisons of apply_key_value.
  method FindField(key: string) returns (r: Option<Field>)
    ensures forall f :: r == Some(f) <==> Names(key, f)
  {
    r := None;
    if CaseEq(key, "YUREI_RPC_ENDPOINT") {
      r := Some(RpcEndpoint);
    } else if CaseEq(key, "YUREI_WSS_ENDPOINT") {
      r := Some(WssEndpoint);
    } else if CaseEq(key, "YUREI_RPC_MODE") {
      r := Some(RpcMode);
    } else if CaseEq(key, "YUREI_POLL_INTERVAL_MS") {
      r := Some(PollIntervalMs);
    } else if CaseEq(key, "YUREI_WS_BACKOFF_MS") {
      r := Some(WsBackoffMs);
    } else if CaseEq(key, "YUREI_WS_BACKOFF_MAX_MS") {
      r := Some(WsBackoffMaxMs);
    } else if CaseEq(key, "YUREI_QUEUE_CAPACITY") {
      r := Some(QueueCapacity);
    } else if CaseEq(key, "YUREI_BATCH_SIZE") {
      r := Some(BatchSize);
    } else if CaseEq(key, "YUREI_PUMPFUN_PROGRAM") {
      r := Some(PumpfunProgram);
    } else if CaseEq(key, "YUREI_RAYDIUM_PROGRAM") {
      r := Some(RaydiumProgram);
    } else if CaseEq(key, "YUREI_PUMPFUN_TABLE") {
      r := Some(PumpfunTable);
    } else if CaseEq(key, "YUREI_RAYDIUM_TABLE") {
      r := Some(RaydiumTable);
    } else if CaseEq(key, "YUREI_PG_CONN") || CaseEq(key, "YUREI_PG_CONNINFO") {
      r := Some(PgConninfo);
    } else if CaseEq(key, "YUREI_LOG_LEVEL") {
      r := Some(LogLevel);
    } else if CaseEq(key, "YUREI_RPC_API_KEY") {
      r := Some(RpcApiKey);
    } else if CaseEq(key, "YUREI_RATE_LIMIT") {
      r := Some(RateLimitRps);
    } else if CaseEq(key, "YUREI_LOG_COLOR") {
      r := Some(LogColor);
    }
    NamesAtMostOne(key);
    assert r.Some? ==> Names(key, r.value);
    if r.None? {
      forall f
        ensures !Names(key, f)
      {
        match f
        case RpcEndpoint | WssEndpoint | RpcApiKey | RpcMode | PollIntervalMs | WsBackoffMs =>
        case WsBackoffMaxMs | QueueCapacity | BatchSize | RateLimitRps | LogColor | LogLevel =>
        case PumpfunProgram | RaydiumProgram | PumpfunTable | RaydiumTable | PgConninfo =>
      }
    }
  }

  // What fgets reads at a position of the file.
  function ChunkAt(text: string, at: nat): (line: string)
    requires at < |text|
    ensures 0 < |line| < 512 && at + |line| <= |text|
  {
    text[at..][..ChunkLength(text[at..])]
  }

  lemma {:induction false} LastValidConcat(start: Value, f: Field, a: seq<Assignment>, b: seq<Assignment>)
    ensures LastValid(start, f, a + b) == LastValid(LastValid(start, f, a), f, b)
    decreases |b|
  {
    if b == [] {
      assert a + b == a;
    } else {
      var n := |b| - 1;
      assert (a + b)[..|a + b| - 1] == a + b[..n];
      LastValidConcat(start, f, a, b[..n]);
    }
  }

  lemma AfterConcat(m: Settings, a: seq<Assignment>, b: seq<Assignment>)
    ensures After(m, a + b) == After(After(m, a), b)
  {
    forall f | f in m
      ensures LastValid(m[f], f, a + b) == LastValid(LastValid(m[f], f, a), f, b)
    {
      LastValidConcat(m[f], f, a, b);
    }
  }

  lemma NothingAssigned(m: Settings)
    ensures After(m, []) == m
  {
  }

  // With these fields, what follows a position of the file leads to `end`.
  ghost predicate LeadsTo(m: Settings, text: string, at: nat, end: Settings) {
    at <= |text| && forall rest | rest == text[at..] :: After(m, FileAssignments(rest)) == end
  }

  lemma FirstLine(m: Settings, text: string)
    ensures LeadsTo(m, text, 0, After(m, FileAssignments(text)))
  {
    assert text[0..] == text;
  }

  lemma NextLine(text: string, at: nat, line: string, m: Settings, m': Settings, end: Settings)
    requires at < |text| && LeadsTo(m, text, at, end)
    requires line == ChunkAt(text, at) && m' == After(m, LineAssignments(line))
    ensures LeadsTo(m', text, at + |line|, end)
  {
    var rest := text[at + |line|..];
    assert text[at..][|line|..] == rest;
    AfterConcat(m, LineAssignments(line), FileAssignments(rest));
    assert After(m, FileAssignments(text[at..])) == end;
  }

  lemma LastLine(m: Settings, text: string, end: Settings)
    requires LeadsTo(m, text, |text|, end)
    ensures m == end
  {
    NothingAssigned(m);
    assert After(m, FileAssignments(text[|text|..])) == end;
  }

  lemma NextVariable(m: Settings, environment: map<string, string>, keys: seq<string>, i: nat)
    requires i < |keys|
    ensures var before := After(m, EnvironmentAssignments(environment, keys[..i]));
            After(m, EnvironmentAssignments(environment, keys[..i + 1]))
            == if keys[i] in environment && environment[keys[i]] != ""
               then After(before, [Assignment(keys[i], environment[keys[i]])])
               else before
  {
    assert keys[..i + 1][..i] == keys[..i];
    if keys[i] in environment && environment[keys[i]] != "" {
      AfterConcat(m, EnvironmentAssignments(environment, keys[..i]), [Assignment(keys[i], environment[keys[i]])]);
    }
  }

  lemma OneAssignment(start: Value, f: Field, a: Assignment)
    ensures LastValid(start, f, [a]) == if Given(a, f).Some? then Given(a, f).value else start
  {
    assert [a][..0] == [];
  }

  // A key that names a field is no other's.
  lemma OnlyField(key: string, value: string, f: Field)
    requires Names(key, f)
    ensures forall start: Value :: LastValid(start, f, [Assignment(key, value)])
              == if Parse(KindOf(f), StripQuotes(value, 512)).Some? then Parse(KindOf(f), StripQuotes(value, 512)).value else start
    ensures forall start: Value, g | g != f :: LastValid(start, g, [Assignment(key, value)]) == start
  {
    forall start: Value
      ensures LastValid(start, f, [Assignment(key, value)])
           == if Given(Assignment(key, value), f).Some? then Given(Assignment(key, value), f).value else start
    {
      OneAssignment(start, f, Assignment(key, value));
    }
    forall start: Value, g | g != f
      ensures LastValid(start, g, [Assignment(key, value)]) == start
    {
      OneAssignment(start, g, Assignment(key, value));
      if Names(key, g) {
        NamesOneField(key, f, g);
      }
    }
  }

  lemma NoField(key: string, value: string)
    requires forall f :: !Names(key, f)
    ensures forall start: Value, g :: LastValid(start, g, [Assignment(key, value)]) == start
  {
    forall start: Value, g
      ensures LastValid(start, g, [Assignment(key, value)]) == start
    {
      OneAssignment(start, g, Assignment(key, value));
    }
  }

  class Configuration {
    var rpcEndpoint: string
    var wssEndpoint: string
    var rpcApiKey: string
    var rpcMode: string
    var pollIntervalMs: nat
    var wsBackoffMs: nat
    var wsBackoffMaxMs: nat
    var queueCapacity: nat
    var batchSize: nat
    var rateLimitRps: nat
    var logColor: bool
    var pumpfunProgram: string
    var raydiumProgram: string
    var pumpfunTable: string
    var raydiumTable: string
    var pgConninfo: string
    var logLevel: string

    function Get(f: Field): Value
      reads this
    {
      match f
      case RpcEndpoint => Words(rpcEndpoint)
      case WssEndpoint => Words(wssEndpoint)
      case RpcApiKey => Words(rpcApiKey)
      case RpcMode => Words(rpcMode)
      case PollIntervalMs => Count(pollIntervalMs)
      case WsBackoffMs => Count(wsBackoffMs)
      case WsBackoffMaxMs => Count(wsBackoffMaxMs)
      case QueueCapacity => Count(queueCapacity)
      case BatchSize => Count(batchSize)
      case RateLimitRps => Count(rateLimitRps)
      case LogColor => Switch(logColor)
      case PumpfunProgram => Words(pumpfunProgram)
      case RaydiumProgram => Words(raydiumProgram)
      case PumpfunTable => Words(pumpfunTable)
      case RaydiumTable => Words(raydiumTable)
      case PgConninfo => Words(pgConninfo)
      case LogLevel => Words(logLevel)
    }

    ghost function View(): (m: Settings)
      reads this
      ensures forall f :: f in m && m[f] == Get(f)
    {
      map f: Field | true :: Get(f)
    }

    constructor ()
      ensures forall f :: Get(f) == Default(f)
    {
      rpcEndpoint := "https://mainnet.helius-rpc.com";
      wssEndpoint := "wss://mainnet.helius-rpc.com";
      rpcApiKey := "";
      rpcMode := "ws";
      pollIntervalMs := 1000;
      wsBackoffMs := 1000;
      wsBackoffMaxMs := 60000;
      queueCapacity := 1024;
      batchSize := 20;
      rateLimitRps := 10;
      logColor := true;
      pumpfunProgram := "6EF8rrecthR5Dkzon8Nwu78hRvfCKubJ14M5uBEwF6P";
      raydiumProgram := "675kPX9MHTjS2zt1qfr1NYHuzeLXfQM9H24wFSUt1Mp8";
      pumpfunTable := "pumpfun_trades";
      raydiumTable := "raydium_swaps";
      pgConninfo := "host=127.0.0.1 port=5432 dbname=yurei user=yurei password=secret";
      logLevel := "info";
    }

    // copy_string into a text field
    method CopyString(f: Field, s: string)
      requires KindOf(f).Buffer?
      modifies this
      ensures Get(f) == Words(Truncate(s, KindOf(f).size))
      ensures forall g | g != f :: Get(g) == old(Get(g))
    {
      match f
      case RpcEndpoint => rpcEndpoint := Truncate(s, 256);
      case WssEndpoint => wssEndpoint := Truncate(s, 256);
      case RpcMode => rpcMode := Truncate(s, 16);
      case PumpfunProgram => pumpfunProgram := Truncate(s, 64);
      case RaydiumProgram => raydiumProgram := Truncate(s, 64);
      case PumpfunTable => pumpfunTable := Truncate(s, 64);
      case RaydiumTable => raydiumTable := Truncate(s, 64);
      case PgConninfo => pgConninfo := Truncate(s, 512);
      case LogLevel => logLevel := Truncate(s, 16);
      case RpcApiKey => rpcApiKey := Truncate(s, 128);
    }

    // set_numeric_uint32 and set_numeric_size: only a text that is a number from end to end counts
    method SetNumeric(f: Field, s: string)
      requires KindOf(f).Unsigned?
      modifies this
      ensures Get(f) == if Strtoul(s).Some? then Count(Strtoul(s).value % KindOf(f).limit) else old(Get(f))
      ensures forall g | g != f :: Get(g) == old(Get(g))
    {
      var parsed := Strtoul(s);
      if s == "" || parsed.None? {
        return;
      }
      match f
      case PollIntervalMs => pollIntervalMs := parsed.value % UINT32_LIMIT;
      case WsBackoffMs => wsBackoffMs := parsed.value % UINT32_LIMIT;
      case WsBackoffMaxMs => wsBackoffMaxMs := parsed.value % UINT32_LIMIT;
      case QueueCapacity => queueCapacity := parsed.value % SIZE_LIMIT;
      case BatchSize => batchSize := parsed.value % UINT32_LIMIT;
      case RateLimitRps => rateLimitRps := parsed.value % UINT32_LIMIT;
    }

    // Stores a text in one field, if it is valid for it, and changes no other.
    method Assign(f: Field, s: string)
      modifies this
      ensures Get(f) == if Parse(KindOf(f), s).Some? then Parse(KindOf(f), s).value else old(Get(f))
      ensures forall g | g != f :: Get(g) == old(Get(g))
    {
      match KindOf(f)
      case Buffer(_) => CopyString(f, s);
      case Unsigned(_) => SetNumeric(f, s);
      case Boolean => logColor := IsYes(s);
    }

    method ApplyKeyValue(key: string, value: string)
      modifies this
      ensures View() == After(old(View()), [Assignment(key, value)])
    {
      var f := FindField(key);
      if f.Some? {
        OnlyField(key, value, f.value);
        Assign(f.value, StripQuotes(value, 512));
      } else {
        NoField(key, value);
      }
    }

    // load_env_file; None when the file cannot be opened.
    method LoadEnvFile(file: Option<string>)
      modifies this
      ensures View() == After(old(View()), if file.Some? then FileAssignments(file.value) else [])
    {
      NothingAssigned(View());
      if file.None? {
        return;
      }
      var text := file.value;
      var at := 0;
      ghost var end := After(View(), FileAssignments(text));
      FirstLine(View(), text);
      while at < |text|
        invariant LeadsTo(View(), text, at, end)
      {
        ghost var was := View();
        var line := ChunkAt(text, at);
        LoadLine(line);
        NextLine(text, at, line, was, View(), end);
        at := at + |line|;
      }
      LastLine(View(), text, end);
    }

    // The body of that loop.
    method LoadLine(line: string)
      requires |line| < 512
      modifies this
      ensures View() == After(old(View()), LineAssignments(line))
    {
      NothingAssigned(View());
      var clean := TrimWhole(line);
      if clean == "" || clean[0] == '#' {
        return;
      }
      var equals := FindChar(clean, '=');
      if equals.None? {
        return;
      }
      var key := TrimWhole(clean[..equals.value]);
      var value := TrimWhole(clean[equals.value + 1..]);
      ApplyKeyValue(key, value);
    }

    method ApplyEnvironmentOverrides(environment: map<string, string>)
      modifies this
      ensures View() == After(old(View()), EnvironmentAssignments(environment, ENVIRONMENT_KEYS))
    {
      var keys := ENVIRONMENT_KEYS;
      NothingAssigned(View());
      for i := 0 to |keys|
        invariant View() == After(old(View()), EnvironmentAssignments(environment, keys[..i]))
      {
        NextVariable(old(View()), environment, keys, i);
        if keys[i] in environment && environment[keys[i]] != "" {
          ApplyKeyValue(keys[i], environment[keys[i]]);
        }
      }
      assert keys[..|keys|] == keys;
    }
  }

  // yurei_config_load: every field is its last valid assignment, the defaults coming first, then
  // the file, then the environment.
  method Load(file: Option<string>, environment: map<string, string>) returns (config: Configuration)
    ensures fresh(config)
    ensures forall f ::
              config.Get(f) == LastValid(Default(f), f,
                                         (if file.Some? then FileAssignments(file.value) else [])
                                         + EnvironmentAssignments(environment, ENVIRONMENT_KEYS))
  {
    config := new Configuration();
    AfterConcat(config.View(), if file.Some? then FileAssignments(file.value) else [],
                EnvironmentAssignments(environment, ENVIRONMENT_KEYS));
    config.LoadEnvFile(file);
    config.ApplyEnvironmentOverrides(environment);
  }

  lemma {:induction false} TrimEndIsPrefix(s: string)
    ensures forall i | |TrimEnd(s)| <= i < |s| :: IsSpace(s[i])
  {
    if s != "" && IsSpace(s[|s| - 1]) {
      TrimEndIsPrefix(s[..|s| - 1]);
      assert forall i | 0 <= i < |s| - 1 :: s[i] == s[..|s| - 1][i];
    }
  }

  lemma {:induction false} NoneValid(start: Value, f: Field, assignments: seq<Assignment>)
    requires forall a | a in assignments :: Given(a, f).None?
    ensures LastValid(start, f, assignments) == start
  {
    if assignments != [] {
      NoneValid(start, f, assignments[..|assignments| - 1]);
    }
  }

  // Which assignment decides a field.
  lemma LastValidDecides(start: Value, f: Field, before: seq<Assignment>, a: Assignment, after: seq<Assignment>)
    ensures Given(a, f).Some? && (forall b | b in after :: Given(b, f).None?) ==>
              LastValid(start, f, (before + [a]) + after) == Given(a, f).value
  {
    if Given(a, f).Some? && forall b | b in after :: Given(b, f).None? {
      LastValidConcat(start, f, before + [a], after);
      LastValidConcat(start, f, before, [a]);
      OneAssignment(LastValid(start, f, before), f, a);
      NoneValid(Given(a, f).value, f, after);
    }
  }

  // Whatever is assigned, no field outgrows its buffer or its integer.
  lemma {:induction false} FieldsHold(start: Value, f: Field, assignments: seq<Assignment>)
    requires Holds(KindOf(f), start)
    ensures Holds(KindOf(f), LastValid(start, f, assignments))
  {
    if assignments != [] && Given(assignments[|assignments| - 1], f).None? {
      FieldsHold(start, f, assignments[..|assignments| - 1]);
    }
  }
}
