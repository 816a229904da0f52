/** What the text of a setting comes to: bare or in quotes, in a file or in the environment. */
module ConfigValues {
  import opened EventTypes
  import opened Text
  import opened Decimal
  import opened Config
  import opened ConfigRoundTrip
  import opened ConfigNewlines

  /// Quotes

  predicate Between(v: string, quote: char, s: string) {
    v == [quote] + (s + [quote])
  }

  // v stands for s: s in a pair of double or of single quotes, or s itself, if it is in neither.
  ghost predicate StandsFor(v: string, s: string) {
    || Between(v, '"', s)
    || Between(v, '\'', s)
    || (v == s && forall t :: !Between(v, '"', t) && !Between(v, '\'', t))
  }

  lemma StripsPair(quote: char, s: string)
    requires quote == '"' || quote == '\''
    requires |s| < 512
    ensures StripQuotes([quote] + (s + [quote]), 512) == s
  {
    var v := [quote] + (s + [quote]);
    assert v[1..|v| - 1] == s;
  }

  lemma InPair(v: string, quote: char)
    requires 2 <= |v| && v[0] == v[|v| - 1] == quote
    ensures Between(v, quote, v[1..|v| - 1])
  {
  }

  // One pair of quotes of either kind is removed, and nothing else.
  lemma StripQuotesIff(v: string, s: string)
    requires |v| < 514
    ensures StripQuotes(v, 512) == s <==> StandsFor(v, s)
  {
    if 2 <= |v| && v[0] == v[|v| - 1] && (v[0] == '"' || v[0] == '\'') {
      var t := v[1..|v| - 1];
      InPair(v, v[0]);
      assert StripQuotes(v, 512) == t;
      if Between(v, '"', s) || Between(v, '\'', s) {
        StripsPair(v[0], s);
      }
    }
  }

  // A text without quotes stands for itself, bare or in either kind of quotes.
  lemma ThreeWays(s: string)
    requires '"' !in s && '\'' !in s
    ensures StandsFor(s, s) && StandsFor("\"" + (s + "\""), s) && StandsFor("'" + (s + "'"), s)
  {
    forall t
      ensures !Between(s, '"', t) && !Between(s, '\'', t)
    {
      assert ([('"')] + (t + ['"']))[0] == '"' && (['\''] + (t + ['\'']))[0] == '\'';
    }
  }

  /// The shape of a line

  lemma {:induction false} SkipStops(left: string, rest: string)
    requires rest != "" && !IsSpace(rest[0])
    ensures SkipSpaces(left + rest) == SkipSpaces(left) + rest
  {
    if left == "" {
      assert left + rest == rest;
    } else {
      SkipStops(left[1..], rest);
      assert (left + rest)[1..] == left[1..] + rest;
      assert IsSpace(left[0]) || SkipSpaces(left) == left;
    }
  }

  lemma {:induction false} TrimEndStops(before: string, right: string)
    requires before != "" && !IsSpace(before[|before| - 1])
    ensures TrimEnd(before + right) == before + TrimEnd(right)
  {
    if right == "" {
      assert before + right == before;
    } else {
      var n := |right| - 1;
      TrimEndStops(before, right[..n]);
      assert (before + right)[..|before + right| - 1] == before + right[..n];
      assert IsSpace(right[n]) || TrimEnd(right) == right;
    }
  }

  lemma Regroup(a: string, b: string, c: string)
    ensures a + (b + c) == (a + b) + c
  {
  }

  lemma TrimAround(left: string, right: string)
    ensures Trimmed(left + ("=" + right)) == SkipSpaces(left) + ("=" + TrimEnd(right))
  {
    var t := SkipSpaces(left);
    SkipStops(left, "=" + right);
    Regroup(t, "=", right);
    TrimEndStops(t + "=", right);
    Regroup(t, "=", TrimEnd(right));
  }

  lemma TrimmedLeft(s: string)
    ensures Trimmed(SkipSpaces(s)) == Trimmed(s)
  {
  }

  // What trimming removes.
  lemma TrimParts(s: string) returns (x: string, y: string)
    ensures s == x + (Trimmed(s) + y) && AllSpace(x) && AllSpace(y) && Tight(Trimmed(s))
  {
    SkipIsSuffix(s);
    var t := SkipSpaces(s);
    TrimEndIsPrefix(t);
    x, y := s[..|s| - |t|], t[|TrimEnd(t)|..];
  }

  lemma MoreBehind(x: string, t: string, y: string, z: string)
    ensures (x + (t + y)) + z == x + (t + (y + z))
  {
  }

  lemma TrimmedRight(s: string)
    ensures Trimmed(TrimEnd(s)) == Trimmed(s)
  {
    var p := TrimEnd(s);
    TrimEndIsPrefix(s);
    var x, y := TrimParts(p);
    var z := s[|p|..];
    assert AllSpace(y + z);
    MoreBehind(x, Trimmed(p), y, z);
    assert s == p + z;
    TrimmedIs(x, Trimmed(p), y + z);
  }

  lemma TrimmedStart(s: string)
    ensures Trimmed(s) == "" <==> SkipSpaces(s) == ""
    ensures Trimmed(s) != "" ==> Trimmed(s)[0] == SkipSpaces(s)[0]
  {
    TrimEndIsPrefix(SkipSpaces(s));
  }

  lemma CleanLine(line: string, t: string, e: string)
    requires Trimmed(line) == t + ("=" + e) && '=' !in t
    ensures LineAssignments(line) == if t != "" && t[0] == '#' then [] else [Assignment(Trimmed(t), Trimmed(e))]
  {
    AroundEquals(t, e);
  }

  lemma NoEqualsSign(line: string)
    requires '=' !in line
    ensures LineAssignments(line) == []
    ensures '=' !in SkipSpaces(line)
  {
    TrimmedIsPart(line);
    SkipIsSuffix(line);
  }

  // A line without an equals sign assigns nothing. Otherwise the key is what stands before the
  // first one and the value what stands behind it, both trimmed, unless the key starts with '#'.
  lemma LineMeans(left: string, right: string)
    requires '=' !in left
    ensures LineAssignments(left) == []
    ensures LineAssignments(left + ("=" + right))
         == if Trimmed(left) != "" && Trimmed(left)[0] == '#' then []
            else [Assignment(Trimmed(left), Trimmed(right))]
  {
    NoEqualsSign(left);
    TrimAround(left, right);
    CleanLine(left + ("=" + right), SkipSpaces(left), TrimEnd(right));
    TrimmedLeft(left);
    TrimmedRight(right);
    TrimmedStart(left);
  }

  /// A line of a file, and a variable

  lemma SettingLine(key: string, v: string, rest: string)
    requires key != "" && key[0] != '#' && '=' !in key && Tight(key) && NoNewline(key)
    requires Tight(v) && v != "" && NoNewline(v) && |key| + 1 + |v| <= 511
    ensures FileAssignments((key + ("=" + v)) + ("\n" + rest)) == [Assignment(key, v)] + FileAssignments(rest)
  {
    var line := key + ("=" + v);
    assert NoNewline(line);
    if |line| < 511 {
      ShortLine(line, rest);
      PlainLine(key, v, "\n");
    } else {
      FullLine(line, rest);
      assert line + "" == line;
      PlainLine(key, v, "");
    }
  }

  lemma FirstDecides(f: Field, a: Assignment, after: seq<Assignment>, start: Value)
    requires Given(a, f).Some? && forall b | b in after :: Given(b, f).None?
    ensures LastValid(start, f, [a] + after) == Given(a, f).value
  {
    LastValidDecides(start, f, [], a, after);
    assert [] + [a] == [a];
  }

  // A line of up to 511 characters that sets a field decides it if no later one does.
  lemma LineDecides(f: Field, v: string, rest: string, start: Value)
    requires Tight(v) && v != "" && NoNewline(v) && |KeyOf(f)| + 1 + |v| <= 511
    requires Given(Assignment(KeyOf(f), v), f).Some?
    requires forall b | b in FileAssignments(rest) :: Given(b, f).None?
    ensures LastValid(start, f, FileAssignments((KeyOf(f) + ("=" + v)) + ("\n" + rest)))
         == Given(Assignment(KeyOf(f), v), f).value
  {
    KeyIsPlain(f);
    SettingLine(KeyOf(f), v, rest);
    FirstDecides(f, Assignment(KeyOf(f), v), FileAssignments(rest), start);
  }

  lemma VariableDecides(environment: map<string, string>, f: Field, start: Value)
    requires f != PgConninfo && KeyOf(f) in environment && environment[KeyOf(f)] != ""
    requires Given(Assignment(KeyOf(f), environment[KeyOf(f)]), f).Some?
    ensures LastValid(start, f, EnvironmentAssignments(environment, ENVIRONMENT_KEYS))
         == Given(Assignment(KeyOf(f), environment[KeyOf(f)]), f).value
  {
    EnvironmentDecides(environment, f, start);
  }

  /// The switch

  predicate EitherCase(s: string, small: string, capital: string)
    requires |small| == |capital|
  {
    |s| == |small| && forall i | 0 <= i < |s| :: s[i] == small[i] || s[i] == capital[i]
  }

  // 1, true or yes, in any case of letters
  predicate SaysYes(s: string) {
    s == "1" || EitherCase(s, "true", "TRUE") || EitherCase(s, "yes", "YES")
  }

  lemma CaseEqWord(s: string, small: string, capital: string)
    requires |small| == |capital|
    requires forall i | 0 <= i < |small| :: 'a' <= small[i] <= 'z' && small[i] as int == capital[i] as int + 32
    ensures CaseEq(s, small) <==> EitherCase(s, small, capital)
  {
    CaseEqIff(s, small);
  }

  lemma SwitchIff(s: string)
    ensures IsYes(s) <==> SaysYes(s)
  {
    CaseEqWord(s, "true", "TRUE");
    CaseEqWord(s, "yes", "YES");
    CaseEqIff(s, "1");
  }

  lemma ColorGiven(v: string, s: string)
    requires |v| < 514 && StandsFor(v, s)
    ensures Given(Assignment(KeyOf(LogColor), v), LogColor) == Some(Switch(SaysYes(s)))
  {
    StripQuotesIff(v, s);
    SwitchIff(s);
    CaseEqSelf(KeyOf(LogColor));
  }

  // The colour switch is on for 1, true and yes, and off for every other text.
  lemma ColorOfLine(v: string, s: string, rest: string, start: Value)
    requires Tight(v) && v != "" && NoNewline(v) && |v| <= 495 && StandsFor(v, s)
    requires forall b | b in FileAssignments(rest) :: Given(b, LogColor).None?
    ensures LastValid(start, LogColor, FileAssignments((KeyOf(LogColor) + ("=" + v)) + ("\n" + rest)))
         == Switch(SaysYes(s))
    ensures KeyOf(LogColor) == "YUREI_LOG_COLOR"
  {
    ColorGiven(v, s);
    LineDecides(LogColor, v, rest, start);
  }

  lemma ColorOfVariable(environment: map<string, string>, v: string, s: string, start: Value)
    requires "YUREI_LOG_COLOR" in environment && environment["YUREI_LOG_COLOR"] == v
    requires v != "" && |v| < 514 && StandsFor(v, s)
    ensures LastValid(start, LogColor, EnvironmentAssignments(environment, ENVIRONMENT_KEYS)) == Switch(SaysYes(s))
  {
    ColorGiven(v, s);
    VariableDecides(environment, LogColor, start);
  }

  /// Texts

  predicate CutTo(size: nat, s: string, r: string) {
    r <= s && (if |s| < size then |r| == |s| else |r| + 1 == size)
  }

  // A text field keeps as much of the text as its buffer holds.
  lemma TextOfLine(f: Field, v: string, s: string, rest: string, start: Value)
    requires KindOf(f).Buffer?
    requires Tight(v) && v != "" && NoNewline(v) && |KeyOf(f)| + 1 + |v| <= 511 && StandsFor(v, s)
    requires forall b | b in FileAssignments(rest) :: Given(b, f).None?
    ensures var r := LastValid(start, f, FileAssignments((KeyOf(f) + ("=" + v)) + ("\n" + rest)));
            r.Words? && CutTo(KindOf(f).size, s, r.s)
  {
    StripQuotesIff(v, s);
    CaseEqSelf(KeyOf(f));
    LineDecides(f, v, rest, start);
  }

  /// Numbers

  // A number field keeps what of a number fits its type.
  lemma NumberGiven(f: Field, v: string, s: string, n: nat)
    requires KindOf(f).Unsigned?
    requires |v| < 514 && StandsFor(v, s)
    requires exists blanks, sign, digits :: SaysNumber(s, blanks, sign, digits, n)
    ensures Given(Assignment(KeyOf(f), v), f) == Some(Count(if KindOf(f).limit == SIZE_LIMIT then n else n % UINT32_LIMIT))
  {
    StripQuotesIff(v, s);
    CaseEqSelf(KeyOf(f));
    StrtoulIff(s, n);
    if KindOf(f).limit == SIZE_LIMIT {
      BelowLimit(n, SIZE_LIMIT);
    }
  }

  // Any other text leaves it as it was.
  lemma NumberRefused(f: Field, v: string, s: string)
    requires KindOf(f).Unsigned?
    requires |v| < 514 && StandsFor(v, s)
    requires forall blanks, sign, digits, n: nat :: !SaysNumber(s, blanks, sign, digits, n)
    ensures Given(Assignment(KeyOf(f), v), f) == None
  {
    StripQuotesIff(v, s);
    if Strtoul(s).Some? {
      ReadNumber(s);
    }
  }
}
