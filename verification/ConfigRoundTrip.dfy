/** What can be written into a configuration file and read back, and who wins when a field is set
    more than once. */
module ConfigRoundTrip {
  import opened EventTypes
  import opened Text
  import opened Decimal
  import opened Config

  /// Trimming

  predicate Tight(s: string) {
    s != "" ==> !IsSpace(s[0]) && !IsSpace(s[|s| - 1])
  }

  lemma {:induction false} TrimTrailing(s: string, b: string)
    requires AllSpace(b) && (s == "" || !IsSpace(s[|s| - 1]))
    ensures TrimEnd(s + b) == s
  {
    if b == "" {
      assert s + b == s;
    } else {
      TrimTrailing(s, b[..|b| - 1]);
      assert (s + b)[..|s + b| - 1] == s + b[..|b| - 1];
    }
  }

  // The one text without outer white space that the input is, between runs of white space.
  lemma TrimmedIs(a: string, t: string, b: string)
    requires AllSpace(a) && AllSpace(b) && Tight(t)
    ensures Trimmed(a + (t + b)) == t
  {
    if t == "" {
      SkipLeading(a + b, "");
      assert a + (t + b) == (a + b) + "";
    } else {
      SkipLeading(a, t + b);
      TrimTrailing(t, b);
    }
  }

  lemma TightIsTrimmed(t: string)
    requires Tight(t)
    ensures Trimmed(t) == t
  {
    TrimmedIs("", t, "");
    assert "" + (t + "") == t;
  }

  /// Rendering

  function ShowValue(v: Value): string {
    match v
    case Words(s) => s
    case Count(n) => Show(n)
    case Switch(on) => if on then "true" else "false"
  }

  function Quoted(v: Value): string {
    "\"" + (ShowValue(v) + "\"")
  }

  // KEY="value"
  function Line(f: Field, v: Value): string {
    KeyOf(f) + ("=" + Quoted(v))
  }

  predicate NoNewline(s: string) {
    '\n' !in s
  }

  // One line for each field of a list, in that order.
  function Render(order: seq<Field>, values: Field -> Value): string {
    if order == [] then ""
    else Line(order[0], values(order[0])) + ("\n" + Render(order[1..], values))
  }

  lemma KeyIsPlain(f: Field)
    ensures KeyOf(f) != "" && KeyOf(f)[0] == 'Y' && forall c | c in KeyOf(f) :: c == '_' || 'A' <= c <= 'Z'
    ensures |KeyOf(f)| <= 23
  {
    assert KeyOf(f)[0] == 'Y';
  }

  lemma {:induction false} FirstAt(s: string, c: char, rest: string)
    requires c !in s
    ensures FindChar(s + ([c] + rest), c) == Some(|s|)
  {
    if s == "" {
      assert s + ([c] + rest) == [c] + rest;
    } else {
      FirstAt(s[1..], c, rest);
      assert (s + ([c] + rest))[1..] == s[1..] + ([c] + rest);
    }
  }

  lemma AroundEquals(key: string, value: string)
    requires '=' !in key
    ensures var line := key + ("=" + value);
            FindChar(line, '=') == Some(|key|) && line[..|key|] == key && line[|key| + 1..] == value
  {
    FirstAt(key, '=', value);
    var line := key + (['='] + value);
    assert line[..|key|] == key && line[|key| + 1..] == value;
  }

  lemma PlainLine(key: string, value: string, end: string)
    requires key != "" && key[0] != '#' && '=' !in key && Tight(key) && Tight(value) && value != "" && AllSpace(end)
    ensures LineAssignments((key + ("=" + value)) + end) == [Assignment(key, value)]
  {
    var line := key + ("=" + value);
    assert line[0] == key[0] && line[|line| - 1] == value[|value| - 1];
    TrimmedIs("", line, end);
    assert "" + (line + end) == line + end;
    AroundEquals(key, value);
    TightIsTrimmed(key);
    TightIsTrimmed(value);
  }

  // A rendered line, with or without its newline, is one assignment.
  lemma LineAssigns(f: Field, v: Value, end: string)
    requires AllSpace(end)
    ensures LineAssignments(Line(f, v) + end) == [Assignment(KeyOf(f), Quoted(v))]
  {
    KeyIsPlain(f);
    PlainLine(KeyOf(f), Quoted(v), end);
  }

  lemma BlankLineAssigns()
    ensures LineAssignments("\n") == []
  {
    TrimmedIs("", "", "\n");
    assert "" + ("" + "\n") == "\n";
  }

  lemma FileThen(text: string, line: string, rest: string)
    requires text == line + rest && line != "" && ChunkLength(text) == |line|
    ensures FileAssignments(text) == LineAssignments(line) + FileAssignments(rest)
  {
    assert text[..|line|] == line && text[|line|..] == rest;
  }

  // A line of fewer than 511 characters is read with its newline, one of 511 before it.
  lemma ShortLine(line: string, rest: string)
    requires NoNewline(line) && 0 < |line| < 511
    ensures FileAssignments(line + ("\n" + rest)) == LineAssignments(line + "\n") + FileAssignments(rest)
  {
    FirstAt(line, '\n', rest);
    var text := line + (['\n'] + rest);
    assert text == (line + "\n") + rest;
    assert ChunkLength(text) == |line| + 1;
    FileThen(text, line + "\n", rest);
  }

  lemma BlankLine(rest: string)
    ensures FileAssignments("\n" + rest) == FileAssignments(rest)
  {
    FirstAt("", '\n', rest);
    assert "" + (['\n'] + rest) == "\n" + rest;
    FileThen("\n" + rest, "\n", rest);
    BlankLineAssigns();
    assert [] + FileAssignments(rest) == FileAssignments(rest);
  }

  lemma FullLine(line: string, rest: string)
    requires NoNewline(line) && |line| == 511
    ensures FileAssignments(line + ("\n" + rest)) == LineAssignments(line) + FileAssignments(rest)
  {
    FirstAt(line, '\n', rest);
    var text := line + (['\n'] + rest);
    assert ChunkLength(text) == 511;
    FileThen(text, line, ['\n'] + rest);
    BlankLine(rest);
  }

  lemma LineHasNoNewline(f: Field, v: Value)
    requires NoNewline(ShowValue(v))
    ensures NoNewline(Line(f, v)) && Line(f, v) != ""
  {
    KeyIsPlain(f);
  }

  lemma FullLineAssigns(f: Field, v: Value)
    ensures LineAssignments(Line(f, v)) == [Assignment(KeyOf(f), Quoted(v))]
  {
    LineAssigns(f, v, "");
    assert Line(f, v) + "" == Line(f, v);
  }

  lemma RenderedLine(f: Field, v: Value, rest: string)
    requires NoNewline(ShowValue(v)) && |Line(f, v)| <= 511
    ensures FileAssignments(Line(f, v) + ("\n" + rest)) == [Assignment(KeyOf(f), Quoted(v))] + FileAssignments(rest)
  {
    var line := Line(f, v);
    LineHasNoNewline(f, v);
    if |line| < 511 {
      ShortLine(line, rest);
      LineAssigns(f, v, "\n");
    } else {
      FullLine(line, rest);
      FullLineAssigns(f, v);
    }
  }

  lemma CaseEqSelf(s: string)
    ensures CaseEq(s, s)
  {
  }

  lemma BelowLimit(n: nat, limit: nat)
    requires n < limit
    ensures n % limit == n
  {
  }

  lemma StripsQuotes(s: string)
    requires |s| < 512
    ensures StripQuotes("\"" + (s + "\""), 512) == s
  {
    var q := "\"" + (s + "\"");
    assert q[1..|q| - 1] == s;
  }

  function PowerOfTen(k: nat): nat {
    if k == 0 then 1 else 10 * PowerOfTen(k - 1)
  }

  lemma TwentyDigits()
    ensures PowerOfTen(20) == 100_000_000_000_000_000_000
  {
    assert PowerOfTen(5) == 100_000;
    assert PowerOfTen(10) == 10_000_000_000;
    assert PowerOfTen(15) == 1_000_000_000_000_000;
  }

  lemma {:induction false} ShowIsShort(n: nat, k: nat)
    requires 0 < k && n < PowerOfTen(k)
    ensures |Show(n)| <= k
  {
    if n >= 10 {
      assert k > 1;
      ShowIsShort(n / 10, k - 1);
    }
  }

  lemma ShortCount(n: nat)
    requires n < SIZE_LIMIT
    ensures |Show(n)| <= 20
  {
    TwentyDigits();
    ShowIsShort(n, 20);
  }

  lemma CountComesBack(f: Field, n: nat)
    requires Holds(KindOf(f), Count(n))
    ensures StripQuotes(Quoted(Count(n)), 512) == Show(n)
    ensures Parse(KindOf(f), Show(n)) == Some(Count(n))
  {
    var limit := KindOf(f).limit;
    StrtoulShow(n);
    ShortCount(n);
    StripsQuotes(Show(n));
    BelowLimit(n, limit);
  }

  lemma SwitchComesBack(on: bool)
    ensures StripQuotes(Quoted(Switch(on)), 512) == ShowValue(Switch(on))
    ensures IsYes(ShowValue(Switch(on))) == on
  {
    StripsQuotes(ShowValue(Switch(on)));
    CaseEqSelf("true");
    assert ToLower("false"[0]) == 'f';
  }

  // What a rendered line gives to its field is the value it was rendered from.
  lemma GivenByLine(f: Field, v: Value)
    requires Holds(KindOf(f), v)
    ensures Given(Assignment(KeyOf(f), Quoted(v)), f) == Some(v)
  {
    CaseEqSelf(KeyOf(f));
    match v
    case Words(s) => StripsQuotes(s);
    case Count(n) => CountComesBack(f, n);
    case Switch(on) => SwitchComesBack(on);
  }

  /// The round trip

  predicate Renders(f: Field, v: Value) {
    Holds(KindOf(f), v) && NoNewline(ShowValue(v)) && |Line(f, v)| <= 511
  }

  function Rendered(order: seq<Field>, values: Field -> Value): seq<Assignment> {
    if order == [] then []
    else [Assignment(KeyOf(order[0]), Quoted(values(order[0])))] + Rendered(order[1..], values)
  }

  lemma {:induction false} RenderAssigns(order: seq<Field>, values: Field -> Value)
    requires forall f | f in order :: Renders(f, values(f))
    ensures FileAssignments(Render(order, values)) == Rendered(order, values)
  {
    if order != [] {
      RenderAssigns(order[1..], values);
      assert Renders(order[0], values(order[0]));
      RenderedLine(order[0], values(order[0]), Render(order[1..], values));
    }
  }

  // The first rendered line, as seen by the field f, and the lines after it.
  lemma FirstOfRendered(order: seq<Field>, values: Field -> Value, f: Field, start: Value)
    requires order != [] && Holds(KindOf(order[0]), values(order[0]))
    ensures LastValid(start, f, Rendered(order, values))
         == LastValid(if order[0] == f then values(f) else start, f, Rendered(order[1..], values))
  {
    var g := order[0];
    var a := Assignment(KeyOf(g), Quoted(values(g)));
    LastValidConcat(start, f, [a], Rendered(order[1..], values));
    OneAssignment(start, f, a);
    CaseEqSelf(KeyOf(g));
    if f == g {
      GivenByLine(f, values(f));
    } else if Names(KeyOf(g), f) {
      NamesOneField(KeyOf(g), f, g);
    }
  }

  lemma {:induction false} RenderedDecides(order: seq<Field>, values: Field -> Value, f: Field, start: Value)
    requires forall g | g in order :: Renders(g, values(g))
    ensures LastValid(start, f, Rendered(order, values)) == if f in order then values(f) else start
  {
    if order != [] {
      assert Renders(order[0], values(order[0]));
      FirstOfRendered(order, values, f, start);
      RenderedDecides(order[1..], values, f, if order[0] == f then values(f) else start);
      assert f in order <==> f == order[0] || f in order[1..];
    }
  }

  // Rendering settings one to a line, in any order, and loading the file gives every rendered
  // field its value back, whatever it was before, and leaves the others as they were.
  lemma RenderThenLoad(order: seq<Field>, values: Field -> Value, f: Field, start: Value)
    requires forall g | g in order :: Renders(g, values(g))
    ensures LastValid(start, f, FileAssignments(Render(order, values))) == if f in order then values(f) else start
  {
    RenderAssigns(order, values);
    RenderedDecides(order, values, f, start);
  }

  /// How long a line may be

  // Only a connection text can make a line too long.
  lemma OnlyPgIsLong(f: Field, v: Value)
    requires Holds(KindOf(f), v) && |Line(f, v)| > 511
    ensures f == PgConninfo && v.Words? && 496 <= |v.s| <= 511
  {
    KeyIsPlain(f);
    if v.Count? {
      ShortCount(v.n);
    }
  }

  lemma CutLine(key: string, s: string, k: nat)
    requires k <= |s|
    ensures (key + ("=" + ("\"" + (s + "\"")))) + "\n" == (key + ("=" + ("\"" + s[..k]))) + (s[k..] + ("\"" + "\n"))
  {
    assert s == s[..k] + s[k..];
  }

  lemma LongChunks(first: string, second: string)
    requires |first| == 511 && NoNewline(first) && 0 < |second| < 512
    requires NoNewline(second[..|second| - 1]) && second[|second| - 1] == '\n'
    ensures FileAssignments(first + second) == LineAssignments(first) + LineAssignments(second)
  {
    var text := first + second;
    var body := second[..|second| - 1];
    FirstAt(first + body, '\n', "");
    assert text == (first + body) + (['\n'] + "");
    FileThen(text, first, second);
    FirstAt(body, '\n', "");
    assert second == body + (['\n'] + "");
    assert second == second + "";
    FileThen(second, second, "");
  }

  lemma LongHalves(key: string, s: string)
    requires NoNewline(key) && NoNewline(s) && |key| == 13 && 496 <= |s| <= 511
    ensures var first, second := key + ("=" + ("\"" + s[..496])), s[496..] + ("\"" + "\n");
            FileAssignments(first + second) == LineAssignments(first) + LineAssignments(second)
  {
    var second := s[496..] + ("\"" + "\n");
    assert second[..|second| - 1] == s[496..] + "\"";
    LongChunks(key + ("=" + ("\"" + s[..496])), second);
  }

  // A value that is cut is still a value.
  lemma CutValue(key: string, value: string)
    requires key != "" && key[0] != '#' && '=' !in key && Tight(key)
    requires value != "" && value[0] == '"'
    ensures LineAssignments(key + ("=" + value)) == [Assignment(key, Trimmed(value))]
  {
    TrimEndIsPrefix(value);
    var t := TrimEnd(value);
    assert t[0] == '"';
    var end := value[|t|..];
    assert value == t + end;
    assert key + ("=" + value) == (key + ("=" + t)) + end;
    PlainLine(key, t, end);
  }

  // What a line of 512 characters or more leaves of a connection text: the first 496 characters
  // behind the opening quote, and then the rest of the line as a line of its own.
  lemma LongLine(s: string)
    requires NoNewline(s) && 496 <= |s| <= 511
    ensures FileAssignments(Line(PgConninfo, Words(s)) + "\n")
         == [Assignment("YUREI_PG_CONN", Trimmed("\"" + s[..496]))] + LineAssignments(s[496..] + ("\"" + "\n"))
  {
    var key := KeyOf(PgConninfo);
    CutLine(key, s, 496);
    KeyIsPlain(PgConninfo);
    LongHalves(key, s);
    CutValue(key, "\"" + s[..496]);
  }

  lemma {:induction false} AllQuotes(s: string, w: string, i: nat)
    requires s <= w && w != "" && w[1..] <= s && w[0] == '"'
    requires i < |s|
    ensures s[i] == '"'
  {
    if i > 0 {
      AllQuotes(s, w, i - 1);
      assert w[1..][i - 1] == s[i - 1];
    }
  }

  // The cut text starts with a quote that is not removed, or has lost its end.
  lemma CutTextDiffers(s: string)
    requires 496 <= |s| < 512
    ensures Truncate(StripQuotes(Trimmed("\"" + s[..496]), 512), 512) != s
  {
    var w := "\"" + s[..496];
    var t := Trimmed(w);
    assert SkipSpaces(w) == w;
    assert |t| <= |w| == 497;
    if t == s {
      assert w[1..] == s[..496];
      AllQuotes(s, w, 0);
      AllQuotes(s, w, |s| - 1);
    }
  }

  // One that is too short for it cannot give it either.
  lemma RestOfLineIsShort(line: string, start: Value, s: string)
    requires |line| < 496 <= |s| && start != Words(s)
    ensures LastValid(start, PgConninfo, LineAssignments(line)) != Words(s)
  {
    TrimmedIsShorter(line);
    var clean, given := Trimmed(line), LineAssignments(line);
    if given != [] {
      TrimmedIsShorter(clean[FindChar(clean, '=').value + 1..]);
      OneAssignment(start, PgConninfo, given[0]);
    }
  }

  lemma FirstPartDiffers(value: string, s: string, start: Value)
    requires Truncate(StripQuotes(value, 512), 512) != s
    ensures LastValid(start, PgConninfo, [Assignment(KeyOf(PgConninfo), value)]) != Words(s)
  {
    CaseEqSelf(KeyOf(PgConninfo));
    OneAssignment(start, PgConninfo, Assignment(KeyOf(PgConninfo), value));
  }

  lemma LongLineIsLost(s: string, start: Value)
    requires NoNewline(s) && 496 <= |s| <= 511
    ensures LastValid(start, PgConninfo, FileAssignments(Line(PgConninfo, Words(s)) + "\n")) != Words(s)
  {
    LongLine(s);
    var first := Assignment(KeyOf(PgConninfo), Trimmed("\"" + s[..496]));
    CutTextDiffers(s);
    FirstPartDiffers(first.value, s, start);
    var rest := s[496..] + ("\"" + "\n");
    LastValidConcat(start, PgConninfo, [first], LineAssignments(rest));
    RestOfLineIsShort(rest, LastValid(start, PgConninfo, [first]), s);
  }

  // A setting written to a file by itself is read back if and only if its line has at most 511
  // characters. (With a newline in it, it is not; see ConfigNewlines.)
  lemma LineRestoredIff(f: Field, v: Value, start: Value)
    requires Holds(KindOf(f), v) && NoNewline(ShowValue(v))
    ensures LastValid(start, f, FileAssignments(Line(f, v) + "\n")) == v <==> |Line(f, v)| <= 511
  {
    if |Line(f, v)| <= 511 {
      RenderThenLoad([f], g => v, f, start);
      assert [f][1..] == [];
      assert Line(f, v) + ("\n" + "") == Line(f, v) + "\n";
    } else {
      OnlyPgIsLong(f, v);
      LongLineIsLost(v.s, start);
    }
  }

  /// The environment has the last word

  function FieldOfKey(i: nat): Field
    requires i < |ENVIRONMENT_KEYS|
  {
    [RpcEndpoint, WssEndpoint, RpcApiKey, RpcMode, PollIntervalMs, WsBackoffMs, WsBackoffMaxMs, QueueCapacity, BatchSize,
     RateLimitRps, LogColor, PumpfunProgram, RaydiumProgram, PgConninfo, PgConninfo, PumpfunTable, RaydiumTable, LogLevel][i]
  }

  lemma KeyAt(i: nat)
    requires i < |ENVIRONMENT_KEYS|
    ensures ENVIRONMENT_KEYS[i] == if i == 14 then PG_ALIAS else KeyOf(FieldOfKey(i))
  {
  }

  lemma KeyNames(i: nat, f: Field)
    requires i < |ENVIRONMENT_KEYS|
    ensures Names(ENVIRONMENT_KEYS[i], f) <==> f == FieldOfKey(i)
  {
    KeyAt(i);
    CaseEqSelf(ENVIRONMENT_KEYS[i]);
    if Names(ENVIRONMENT_KEYS[i], f) {
      NamesOneField(ENVIRONMENT_KEYS[i], f, FieldOfKey(i));
    }
  }

  // The environment's value for a key, if it is set and valid for the field.
  function Override(environment: map<string, string>, key: string, f: Field): Option<Value> {
    if key in environment && environment[key] != "" then Parse(KindOf(f), StripQuotes(environment[key], 512)) else None
  }

  // One more key of a table adds its variable, if that is set.
  lemma VariableStep(environment: map<string, string>, keys: seq<string>, n: nat, f: Field, start: Value)
    requires n < |keys|
    ensures var before := LastValid(start, f, EnvironmentAssignments(environment, keys[..n]));
            LastValid(start, f, EnvironmentAssignments(environment, keys[..n + 1]))
            == if keys[n] in environment && environment[keys[n]] != ""
               then LastValid(before, f, [Assignment(keys[n], environment[keys[n]])])
               else before
  {
    assert keys[..n + 1][..n] == keys[..n];
    if keys[n] in environment && environment[keys[n]] != "" {
      LastValidConcat(start, f, EnvironmentAssignments(environment, keys[..n]), [Assignment(keys[n], environment[keys[n]])]);
    }
  }

  lemma OverrideStep(environment: map<string, string>, n: nat, f: Field, start: Value)
    requires n < |ENVIRONMENT_KEYS|
    ensures LastValid(start, f, EnvironmentAssignments(environment, ENVIRONMENT_KEYS[..n + 1]))
         == if FieldOfKey(n) == f && Override(environment, ENVIRONMENT_KEYS[n], f).Some?
            then Override(environment, ENVIRONMENT_KEYS[n], f).value
            else LastValid(start, f, EnvironmentAssignments(environment, ENVIRONMENT_KEYS[..n]))
  {
    var key := ENVIRONMENT_KEYS[n];
    KeyNames(n, f);
    VariableStep(environment, ENVIRONMENT_KEYS, n, f, start);
    if key in environment && environment[key] != "" {
      var before := LastValid(start, f, EnvironmentAssignments(environment, ENVIRONMENT_KEYS[..n]));
      OneAssignment(before, f, Assignment(key, environment[key]));
    }
  }

  // The position of the last key of a field in the table.
  function LastKey(f: Field): (i: nat)
    ensures i < |ENVIRONMENT_KEYS| && FieldOfKey(i) == f
    ensures forall j: nat | i < j < |ENVIRONMENT_KEYS| :: FieldOfKey(j) != f
  {
    match f
    case RpcEndpoint => 0 case WssEndpoint => 1 case RpcApiKey => 2 case RpcMode => 3
    case PollIntervalMs => 4 case WsBackoffMs => 5 case WsBackoffMaxMs => 6 case QueueCapacity => 7
    case BatchSize => 8 case RateLimitRps => 9 case LogColor => 10 case PumpfunProgram => 11
    case RaydiumProgram => 12 case PgConninfo => 14 case PumpfunTable => 15 case RaydiumTable => 16
    case LogLevel => 17
  }

  lemma {:induction false} NoKeyBetween(environment: map<string, string>, m: nat, n: nat, f: Field, start: Value)
    requires m <= n <= |ENVIRONMENT_KEYS|
    requires forall j: nat | m <= j < n :: FieldOfKey(j) != f
    ensures LastValid(start, f, EnvironmentAssignments(environment, ENVIRONMENT_KEYS[..n]))
         == LastValid(start, f, EnvironmentAssignments(environment, ENVIRONMENT_KEYS[..m]))
  {
    if m < n {
      OverrideStep(environment, n - 1, f, start);
      NoKeyBetween(environment, m, n - 1, f, start);
    }
  }

  // The one key of f among the first n.
  lemma OneKeyOverrides(environment: map<string, string>, i: nat, n: nat, f: Field, start: Value)
    requires i < n <= |ENVIRONMENT_KEYS| && FieldOfKey(i) == f
    requires forall j: nat | j < n && j != i :: FieldOfKey(j) != f
    ensures LastValid(start, f, EnvironmentAssignments(environment, ENVIRONMENT_KEYS[..n]))
         == OrElse(Override(environment, ENVIRONMENT_KEYS[i], f), start)
  {
    NoKeyBetween(environment, i + 1, n, f, start);
    OverrideStep(environment, i, f, start);
    NoKeyBetween(environment, 0, i, f, start);
    assert EnvironmentAssignments(environment, ENVIRONMENT_KEYS[..0]) == [];
  }

  lemma PgKeys()
    ensures |ENVIRONMENT_KEYS| == 18 && ENVIRONMENT_KEYS[13] == KeyOf(PgConninfo) && ENVIRONMENT_KEYS[14] == PG_ALIAS
    ensures forall j: nat | j < 18 :: FieldOfKey(j) == PgConninfo <==> j == 13 || j == 14
  {
  }

  function OverrideOr(environment: map<string, string>, f: Field, start: Value): Value {
    var alias := if f == PgConninfo then Override(environment, PG_ALIAS, f) else None;
    var plain := Override(environment, KeyOf(f), f);
    OrElse(alias, OrElse(plain, start))
  }

  lemma PgOverrides(environment: map<string, string>, start: Value)
    ensures LastValid(start, PgConninfo, EnvironmentAssignments(environment, ENVIRONMENT_KEYS))
         == OverrideOr(environment, PgConninfo, start)
  {
    PgKeys();
    assert ENVIRONMENT_KEYS[..18] == ENVIRONMENT_KEYS;
    NoKeyBetween(environment, 15, 18, PgConninfo, start);
    OverrideStep(environment, 14, PgConninfo, start);
    OneKeyOverrides(environment, 13, 14, PgConninfo, start);
  }

  lemma TableHasKey(f: Field)
    requires f != PgConninfo
    ensures ENVIRONMENT_KEYS[LastKey(f)] == KeyOf(f)
  {
    KeyAt(LastKey(f));
  }

  lemma OnlyOneKey(f: Field)
    requires f != PgConninfo
    ensures forall j: nat | j < |ENVIRONMENT_KEYS| && j != LastKey(f) :: FieldOfKey(j) != f
  {
  }

  // A non-empty valid value of the environment beats every default and every line of the file; of
  // the two keys of the connection text the longer one beats the other. An invalid number changes
  // nothing.
  lemma EnvironmentDecides(environment: map<string, string>, f: Field, start: Value)
    ensures LastValid(start, f, EnvironmentAssignments(environment, ENVIRONMENT_KEYS))
         == OverrideOr(environment, f, start)
  {
    if f == PgConninfo {
      PgOverrides(environment, start);
    } else {
      OnlyOneKey(f);
      OneKeyOverrides(environment, LastKey(f), |ENVIRONMENT_KEYS|, f, start);
      TableHasKey(f);
      assert ENVIRONMENT_KEYS[..|ENVIRONMENT_KEYS|] == ENVIRONMENT_KEYS;
    }
  }

  // A rendered file through the whole load: with an empty environment every rendered field has
  // its value back, and otherwise just the overridden ones differ.
  lemma RoundTrip(order: seq<Field>, values: Field -> Value, environment: map<string, string>, f: Field)
    requires f in order && forall g | g in order :: Renders(g, values(g))
    ensures LastValid(Default(f), f, FileAssignments(Render(order, values)) + EnvironmentAssignments(environment, ENVIRONMENT_KEYS))
         == OverrideOr(environment, f, values(f))
    ensures environment == map[] ==> OverrideOr(environment, f, values(f)) == values(f)
  {
    LastValidConcat(Default(f), f, FileAssignments(Render(order, values)), EnvironmentAssignments(environment, ENVIRONMENT_KEYS));
    RenderThenLoad(order, values, f, Default(f));
    EnvironmentDecides(environment, f, values(f));
  }
}
