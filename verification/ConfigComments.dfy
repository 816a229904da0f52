/** Comment lines of a configuration file. A line is read 511 characters at a time, so what a long
    comment has after them is read as a line of its own. */
module ConfigComments {
  import opened Config
  import opened ConfigRoundTrip

  lemma CutAfter511(line: string, rest: string)
    requires NoNewline(line) && 511 <= |line|
    ensures FileAssignments(line + ("\n" + rest)) == LineAssignments(line[..511]) + FileAssignments(line[511..] + ("\n" + rest))
  {
    var text := line + (['\n'] + rest);
    FirstAt(line, '\n', rest);
    assert ChunkLength(text) == 511;
    assert text == line[..511] + (line[511..] + (['\n'] + rest));
    FileThen(text, line[..511], line[511..] + (['\n'] + rest));
  }

  lemma EmptyLineThenRest(rest: string)
    ensures FileAssignments("\n" + rest) == FileAssignments("\n" + "") + FileAssignments(rest)
  {
    BlankLine(rest);
    BlankLine("");
    assert [] + FileAssignments(rest) == FileAssignments(rest);
  }

  lemma ThenMore(a: seq<Assignment>, b: seq<Assignment>, c: seq<Assignment>)
    ensures a + (b + c) == (a + b) + c
  {
  }

  // A line, whatever its length, has no influence on how the lines after it are read.
  lemma {:induction false} LineThenRest(line: string, rest: string)
    requires NoNewline(line)
    ensures FileAssignments(line + ("\n" + rest)) == FileAssignments(line + ("\n" + "")) + FileAssignments(rest)
    decreases |line|
  {
    if line == "" {
      EmptyLineThenRest(rest);
      assert "" + ("\n" + rest) == "\n" + rest && "" + ("\n" + "") == "\n" + "";
    } else if |line| < 511 {
      ShortLine(line, rest);
      ShortLine(line, "");
      assert LineAssignments(line + "\n") + FileAssignments("") == LineAssignments(line + "\n");
    } else {
      CutAfter511(line, rest);
      CutAfter511(line, "");
      LineThenRest(line[511..], rest);
      ThenMore(LineAssignments(line[..511]), FileAssignments(line[511..] + ("\n" + "")), FileAssignments(rest));
    }
  }

  lemma CommentLine(line: string)
    requires line != "" && line[0] == '#'
    ensures LineAssignments(line) == []
  {
    TrimEndIsPrefix(line);
    assert TrimEnd(line) != "" && TrimEnd(line)[0] == '#';
  }

  // A comment of up to 511 characters is skipped. Of a longer one the rest is read as a line.
  lemma CommentAssigns(comment: string, rest: string)
    requires NoNewline(comment) && comment != "" && comment[0] == '#'
    ensures FileAssignments(comment + ("\n" + rest))
         == if |comment| <= 511 then FileAssignments(rest) else FileAssignments(comment[511..] + ("\n" + rest))
  {
    if |comment| < 511 {
      ShortLine(comment, rest);
      CommentLine(comment + "\n");
    } else if |comment| == 511 {
      FullLine(comment, rest);
      CommentLine(comment);
    } else {
      CutAfter511(comment, rest);
      CommentLine(comment[..511]);
    }
  }

  // So a comment is harmless, whatever follows it in the file, if and only if it has at most 511
  // characters or what it has beyond them assigns nothing.
  lemma CommentIsHarmlessIff(comment: string)
    requires NoNewline(comment) && comment != "" && comment[0] == '#'
    ensures (forall rest :: FileAssignments(comment + ("\n" + rest)) == FileAssignments(rest))
       <==> |comment| <= 511 || FileAssignments(comment[511..] + ("\n" + "")) == []
  {
    forall rest
      ensures FileAssignments(comment + ("\n" + rest))
           == if |comment| <= 511 then FileAssignments(rest)
              else FileAssignments(comment[511..] + ("\n" + "")) + FileAssignments(rest)
    {
      CommentAssigns(comment, rest);
      if 511 < |comment| {
        LineThenRest(comment[511..], rest);
      }
    }
    assert FileAssignments("") == [];
    if |comment| > 511 && forall rest :: FileAssignments(comment + ("\n" + rest)) == FileAssignments(rest) {
      assert FileAssignments(comment + ("\n" + "")) == FileAssignments("");
    }
  }

  lemma SettingLoads(f: Field, v: Value, start: Value)
    requires Renders(f, v)
    ensures LastValid(start, f, FileAssignments(Line(f, v) + ("\n" + ""))) == v
  {
    var a := Assignment(KeyOf(f), Quoted(v));
    RenderedLine(f, v, "");
    assert [a] + FileAssignments("") == [a];
    GivenByLine(f, v);
    OneAssignment(start, f, a);
  }

  // It can do harm: a '#' and any 510 characters in front do not disable a setting.
  lemma CommentCanAssign(filler: string, f: Field, v: Value, start: Value)
    requires NoNewline(filler) && |filler| == 510 && Renders(f, v)
    ensures LastValid(start, f, FileAssignments((("#" + filler) + Line(f, v)) + ("\n" + ""))) == v
  {
    var comment := ("#" + filler) + Line(f, v);
    LineHasNoNewline(f, v);
    assert comment[511..] == Line(f, v);
    CommentAssigns(comment, "");
    SettingLoads(f, v, start);
  }
}
