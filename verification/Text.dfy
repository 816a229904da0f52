// The character classes and string searches of the C library, in the "C" locale. A string holds
// one char per byte and no terminating zero.
module Text {
  import opened EventTypes

  predicate IsSpace(c: char) {
    c == ' ' || '\t' <= c <= '\r'
  }

  predicate IsDigit(c: char) {
    '0' <= c <= '9'
  }

  function ToLower(c: char): char {
    if 'A' <= c <= 'Z' then c - 'A' + 'a' else c
  }

  // strcasecmp(a, b) == 0
  predicate CaseEq(a: string, b: string) {
    |a| == |b| && forall i | 0 <= i < |a| :: ToLower(a[i]) == ToLower(b[i])
  }

  // Past the leading white space.
  function SkipSpaces(s: string): (r: string)
    ensures r == "" || !IsSpace(r[0])
  {
    if s != "" && IsSpace(s[0]) then SkipSpaces(s[1..]) else s
  }

  // strchr: the first position of c.
  function FindChar(s: string, c: char): (r: Option<nat>)
    ensures r.None? ==> c !in s
    ensures r.Some? ==> r.value < |s| && s[r.value] == c && c !in s[..r.value]
  {
    if s == "" then None
    else if s[0] == c then Some(0)
    else
      match FindChar(s[1..], c)
      case None => None
      case Some(i) =>
        assert s[..i + 1] == [s[0]] + s[1..][..i];
        Some(i + 1)
  }

  predicate OccursAt(s: string, pattern: string, i: nat) {
    i + |pattern| <= |s| && s[i..i + |pattern|] == pattern
  }

  function FindFrom(s: string, pattern: string, from: nat): (r: Option<nat>)
    ensures r.None? ==> forall i: nat | from <= i :: !OccursAt(s, pattern, i)
    ensures r.Some? ==> from <= r.value && OccursAt(s, pattern, r.value)
    ensures r.Some? ==> forall i: nat | from <= i < r.value :: !OccursAt(s, pattern, i)
    decreases |s| - from
  {
    if |s| < from + |pattern| then None
    else if OccursAt(s, pattern, from) then Some(from)
    else FindFrom(s, pattern, from + 1)
  }

  // strstr: the first position at which the pattern occurs.
  function Find(s: string, pattern: string): (r: Option<nat>)
    ensures r.None? ==> forall i: nat :: !OccursAt(s, pattern, i)
    ensures r.Some? ==> OccursAt(s, pattern, r.value) && forall i: nat | i < r.value :: !OccursAt(s, pattern, i)
  {
    FindFrom(s, pattern, 0)
  }

  // snprintf("%s") into a buffer of n bytes.
  function Truncate(s: string, n: nat): (r: string)
    requires 0 < n
    ensures |r| < n && r <= s
    ensures |s| < n ==> r == s
  {
    if |s| < n then s else s[..n - 1]
  }

  predicate AllSpace(s: string) {
    forall i | 0 <= i < |s| :: IsSpace(s[i])
  }

  // Skipping white space removes a run of white space in front.
  lemma {:induction false} SkipIsSuffix(s: string)
    ensures |SkipSpaces(s)| <= |s| && SkipSpaces(s) == s[|s| - |SkipSpaces(s)|..]
    ensures forall i | 0 <= i < |s| - |SkipSpaces(s)| :: IsSpace(s[i])
  {
    if s != "" && IsSpace(s[0]) {
      SkipIsSuffix(s[1..]);
      assert forall i | 1 <= i < |s| :: s[i] == s[1..][i - 1];
    }
  }

  lemma {:induction false} SkipLeading(a: string, s: string)
    requires AllSpace(a) && (s == "" || !IsSpace(s[0]))
    ensures SkipSpaces(a + s) == s
  {
    if a == "" {
      assert a + s == s;
    } else {
      SkipLeading(a[1..], s);
      assert (a + s)[1..] == a[1..] + s;
    }
  }

  // The characters of isspace, and the letters that differ in case only, spelled out.
  lemma SpacesAre(c: char)
    ensures IsSpace(c) <==> c in [' ', 9 as char, 10 as char, 11 as char, 12 as char, 13 as char]
  {
  }

  predicate Alike(c: char, d: char) {
    || c == d
    || ('A' <= c <= 'Z' && d as int == c as int + 32)
    || ('A' <= d <= 'Z' && c as int == d as int + 32)
  }

  lemma CaseEqIff(a: string, b: string)
    ensures CaseEq(a, b) <==> |a| == |b| && forall i | 0 <= i < |a| :: Alike(a[i], b[i])
  {
  }
}
