/** Settings that hold a newline cannot be written to a configuration file. */
module ConfigNewlines {
  import opened Text
  import opened Decimal
  import opened Config
  import opened ConfigRoundTrip

  /// A value from a file never holds a newline

  predicate Newlineless(a: Assignment) {
    NoNewline(a.value)
  }

  lemma TrimmedIsPart(s: string)
    ensures forall c | c in Trimmed(s) :: c in s
  {
    SkipIsSuffix(s);
    var t := SkipSpaces(s);
    assert forall c | c in t :: c in s;
    assert TrimEnd(t) <= t;
  }

  lemma ChunkEnds(text: string)
    requires text != ""
    ensures var chunk := text[..ChunkLength(text)];
            NoNewline(chunk[..|chunk| - 1])
  {
    var n := ChunkLength(text);
    var newline := FindChar(text, '\n');
    assert text[..n][..n - 1] == text[..n - 1];
    assert forall i | 0 <= i < n - 1 && newline.Some? :: text[i] == text[..newline.value][i];
  }

  // A chunk can only end in a newline, and trimming takes that off.
  lemma TrimmedChunk(chunk: string)
    requires chunk != "" && NoNewline(chunk[..|chunk| - 1])
    ensures NoNewline(Trimmed(chunk))
  {
    var last := chunk[|chunk| - 1];
    TrimmedIsPart(chunk);
    if last == '\n' {
      var body := chunk[..|chunk| - 1];
      SkipIsSuffix(chunk);
      TrimEndIsPrefix(SkipSpaces(chunk));
      assert chunk == body + [last];
      var t := SkipSpaces(chunk);
      assert t != "" ==> t[|t| - 1] == last;
      assert forall i | 0 <= i < |t| - 1 :: t[i] == chunk[|chunk| - |t| + i] && chunk[|chunk| - |t| + i] in body;
    } else {
      assert forall i | 0 <= i < |chunk| - 1 :: chunk[i] == chunk[..|chunk| - 1][i];
    }
  }

  lemma LineIsNewlineless(chunk: string)
    requires chunk != "" && NoNewline(chunk[..|chunk| - 1])
    ensures forall a | a in LineAssignments(chunk) :: Newlineless(a)
  {
    TrimmedChunk(chunk);
    var clean := Trimmed(chunk);
    if LineAssignments(chunk) != [] {
      TrimmedIsPart(clean[FindChar(clean, '=').value + 1..]);
    }
  }

  lemma {:induction false} FileIsNewlineless(text: string)
    ensures forall a | a in FileAssignments(text) :: Newlineless(a)
    decreases |text|
  {
    if text != "" {
      ChunkEnds(text);
      LineIsNewlineless(text[..ChunkLength(text)]);
      FileIsNewlineless(text[ChunkLength(text)..]);
    }
  }

  predicate ShowsNoNewline(v: Value) {
    v.Words? ==> NoNewline(v.s)
  }

  lemma GivenIsNewlineless(a: Assignment, f: Field)
    requires Newlineless(a) && Given(a, f).Some?
    ensures ShowsNoNewline(Given(a, f).value)
  {
    var s := StripQuotes(a.value, 512);
    assert forall c | c in s :: c in a.value;
  }

  lemma {:induction false} LastIsNewlineless(start: Value, f: Field, assignments: seq<Assignment>)
    requires ShowsNoNewline(start) && forall a | a in assignments :: Newlineless(a)
    ensures ShowsNoNewline(LastValid(start, f, assignments))
  {
    if assignments != [] {
      var n := |assignments| - 1;
      assert assignments[n] in assignments;
      if Given(assignments[n], f).Some? {
        GivenIsNewlineless(assignments[n], f);
      } else {
        LastIsNewlineless(start, f, assignments[..n]);
      }
    }
  }

  /// A rendered line always assigns something

  lemma FirstNewlineIsLater(text: string, k: nat)
    requires k <= |text| && k < 512 && NoNewline(text[..k])
    ensures k <= ChunkLength(text)
  {
    assert forall i | 0 <= i < k :: text[i] in text[..k];
  }

  // The first chunk of a rendered text goes beyond the opening quote.
  lemma FirstChunk(key: string, rest: string)
    requires NoNewline(key) && |key| < 500
    ensures var text := key + ("=\"" + rest);
            var n := ChunkLength(text);
            |key| + 2 <= n <= |text| && text[..n] == key + ("=" + ("\"" + rest[..n - |key| - 2]))
  {
    var text := key + ("=\"" + rest);
    assert text[..|key| + 2] == key + "=\"";
    FirstNewlineIsLater(text, |key| + 2);
  }

  lemma LineShapeOf(key: string, shown: string, rest: string)
    ensures (key + ("=" + ("\"" + (shown + "\"")))) + rest == key + ("=\"" + ((shown + "\"") + rest))
  {
  }

  lemma LineShape(f: Field, v: Value, rest: string)
    ensures Line(f, v) + rest == KeyOf(f) + ("=\"" + ((ShowValue(v) + "\"") + rest))
  {
    LineShapeOf(KeyOf(f), ShowValue(v), rest);
  }

  lemma ChunkAssigns(key: string, rest: string)
    requires key != "" && key[0] != '#' && '=' !in key && Tight(key) && NoNewline(key) && |key| < 500
    ensures var text := key + ("=\"" + rest);
            var given := LineAssignments(text[..ChunkLength(text)]);
            |given| == 1 && given[0].key == key
  {
    FirstChunk(key, rest);
    CutValue(key, "\"" + rest[..ChunkLength(key + ("=\"" + rest)) - |key| - 2]);
  }

  lemma NamedIsGiven(f: Field, a: Assignment)
    requires KindOf(f).Buffer? && a.key == KeyOf(f)
    ensures Given(a, f).Some?
  {
    CaseEqSelf(KeyOf(f));
  }

  lemma FirstChunkAssigns(f: Field, v: Value, rest: string)
    requires KindOf(f).Buffer?
    ensures var text := Line(f, v) + rest;
            var given := LineAssignments(text[..ChunkLength(text)]);
            |given| == 1 && Given(given[0], f).Some?
  {
    var text := Line(f, v) + rest;
    LineShape(f, v, rest);
    KeyIsPlain(f);
    ChunkAssigns(KeyOf(f), (ShowValue(v) + "\"") + rest);
    NamedIsGiven(f, LineAssignments(text[..ChunkLength(text)])[0]);
  }

  lemma LoadedIsNewlineless(f: Field, v: Value, start: Value)
    requires KindOf(f).Buffer?
    ensures ShowsNoNewline(LastValid(start, f, FileAssignments(Line(f, v) + "\n")))
  {
    var text := Line(f, v) + "\n";
    var n := ChunkLength(text);
    FirstChunkAssigns(f, v, "\n");
    var first, rest := LineAssignments(text[..n]), FileAssignments(text[n..]);
    assert FileAssignments(text) == first + rest;
    FileIsNewlineless(text);
    assert first[0] in FileAssignments(text);
    GivenIsNewlineless(first[0], f);
    assert first == [first[0]];
    OneAssignment(start, f, first[0]);
    LastValidConcat(start, f, first, rest);
    LastIsNewlineless(Given(first[0], f).value, f, rest);
  }

  lemma ShowsOneLine(v: Value)
    requires !v.Words?
    ensures NoNewline(ShowValue(v))
  {
    if v.Count? {
      assert AllDigits(Show(v.n));
    }
  }

  // A setting written to a file by itself is read back if and only if it holds no newline and its
  // line has at most 511 characters, whatever was set before.
  lemma RestoredIff(f: Field, v: Value, start: Value)
    requires Holds(KindOf(f), v)
    ensures LastValid(start, f, FileAssignments(Line(f, v) + "\n")) == v
       <==> NoNewline(ShowValue(v)) && |Line(f, v)| <= 511
  {
    if NoNewline(ShowValue(v)) {
      LineRestoredIff(f, v, start);
    } else if v.Words? {
      LoadedIsNewlineless(f, v, start);
    } else {
      ShowsOneLine(v);
    }
  }
}
