/** Decimal numbers as strtoul and atoi read them and printf writes them, on a 64-bit long. */
module Decimal {
  import opened EventTypes
  import opened Text

  predicate AllDigits(s: string) {
    forall i | 0 <= i < |s| :: IsDigit(s[i])
  }

  function DigitValue(c: char): nat
    requires IsDigit(c)
  {
    (c - '0') as nat
  }

  function ValueOf(digits: string): nat
    requires AllDigits(digits)
  {
    if digits == "" then 0
    else ValueOf(digits[..|digits| - 1]) * 10 + DigitValue(digits[|digits| - 1])
  }

  // printf("%u")
  function Show(n: nat): (s: string)
    ensures AllDigits(s) && s != "" && ValueOf(s) == n
  {
    var last := ['0' + (n % 10) as char];
    if n < 10 then assert ValueOf(last[..0]) == 0; last
    else
      var s := Show(n / 10) + last;
      assert s[..|s| - 1] == Show(n / 10);
      s
  }

  // The number at the start of a text: its sign, its digits, and what follows them.
  datatype Scan = Scan(negative: bool, digits: string, rest: string)

  function DigitPrefix(s: string): (n: nat)
    ensures n <= |s| && AllDigits(s[..n]) && (n < |s| ==> !IsDigit(s[n]))
  {
    if s == "" || !IsDigit(s[0]) then 0
    else
      var n := DigitPrefix(s[1..]);
      assert s[..n + 1] == [s[0]] + s[1..][..n];
      n + 1
  }

  function AfterSign(t: string): string {
    if t != "" && (t[0] == '-' || t[0] == '+') then t[1..] else t
  }

  function ScanNumber(s: string): (r: Scan)
    ensures AllDigits(r.digits)
  {
    var t := SkipSpaces(s);
    var u := AfterSign(t);
    var n := DigitPrefix(u);
    Scan(t != "" && t[0] == '-', u[..n], u[n..])
  }

  // strtoul with the test that the whole text was used. Too large a number reads as the largest;
  // a minus sign negates in 64 bits.
  function Strtoul(s: string): (r: Option<nat>)
    ensures r.Some? ==> r.value < 0x1_0000_0000_0000_0000
  {
    var scan := ScanNumber(s);
    if scan.digits == "" || scan.rest != "" then None
    else
      var v := ValueOf(scan.digits);
      Some(if v >= 0x1_0000_0000_0000_0000 then 0xFFFF_FFFF_FFFF_FFFF
           else if scan.negative && v != 0 then 0x1_0000_0000_0000_0000 - v
           else v)
  }

  // The value of a long clamped to 64 bits and then cut to a signed 32-bit int.
  function ToInt(v: int): (r: int)
    ensures -0x8000_0000 <= r < 0x8000_0000
    ensures -0x8000_0000 <= v < 0x8000_0000 ==> r == v
  {
    var clamped := if v < -0x8000_0000_0000_0000 then -0x8000_0000_0000_0000
                   else if v >= 0x8000_0000_0000_0000 then 0x7FFF_FFFF_FFFF_FFFF
                   else v;
    (clamped + 0x8000_0000) % 0x1_0000_0000 - 0x8000_0000
  }

  function SignedValue(scan: Scan): int
    requires AllDigits(scan.digits)
  {
    var v: int := ValueOf(scan.digits);
    if scan.negative then -v else v
  }

  // atoi
  function Atoi(s: string): int {
    ToInt(SignedValue(ScanNumber(s)))
  }

  lemma {:induction false} DigitPrefixStops(digits: string, rest: string)
    requires AllDigits(digits)
    requires rest == "" || !IsDigit(rest[0])
    ensures DigitPrefix(digits + rest) == |digits|
  {
    if digits == "" {
      assert digits + rest == rest;
    } else {
      DigitPrefixStops(digits[1..], rest);
      assert (digits + rest)[1..] == digits[1..] + rest;
    }
  }

  // Digits followed by something else are read back, and no further.
  lemma ScanDigits(digits: string, rest: string)
    requires AllDigits(digits) && digits != ""
    requires rest == "" || !IsDigit(rest[0])
    ensures ScanNumber(digits + rest) == Scan(false, digits, rest)
  {
    var s := digits + rest;
    assert s[0] == digits[0];
    DigitPrefixStops(digits, rest);
    assert s[..|digits|] == digits && s[|digits|..] == rest;
  }

  lemma StrtoulShow(n: nat)
    requires n < 0x1_0000_0000_0000_0000
    ensures Strtoul(Show(n)) == Some(n)
  {
    ScanDigits(Show(n), "");
    assert Show(n) + "" == Show(n);
  }

  // What atoi gives for a digit string is its value, as long as an int can hold it.
  lemma AtoiDigits(digits: string, rest: string)
    requires AllDigits(digits) && digits != "" && ValueOf(digits) < 0x8000_0000
    requires rest == "" || !IsDigit(rest[0])
    ensures Atoi(digits + rest) == ValueOf(digits)
  {
    ScanDigits(digits, rest);
  }

  lemma SignThenSlash(t: string, rest: string)
    requires rest == "" || rest[0] == '/'
    ensures AfterSign(t + rest) == AfterSign(t) + rest
    ensures (t + rest != "" && (t + rest)[0] == '-') == (t != "" && t[0] == '-')
  {
    if t == "" {
      assert t + rest == rest;
    } else {
      assert (t + rest)[1..] == t[1..] + rest;
    }
  }

  lemma {:induction false} DigitsThenSlash(u: string, rest: string)
    requires rest == "" || rest[0] == '/'
    ensures var n := DigitPrefix(u);
            n <= |u| && DigitPrefix(u + rest) == n && (u + rest)[..n] == u[..n]
  {
    if u == "" {
      assert u + rest == rest;
    } else {
      DigitsThenSlash(u[1..], rest);
      assert (u + rest)[0] == u[0] && (u + rest)[1..] == u[1..] + rest;
    }
  }

  lemma {:induction false} SkipThenSlash(s: string, rest: string)
    requires '/' !in s && (rest == "" || rest[0] == '/')
    ensures SkipSpaces(s + rest) == SkipSpaces(s) + rest
    ensures '/' !in SkipSpaces(s)
  {
    if s == "" {
      assert s + rest == rest;
    } else if IsSpace(s[0]) {
      SkipThenSlash(s[1..], rest);
      assert (s + rest)[1..] == s[1..] + rest;
    } else {
      assert (s + rest)[0] == s[0];
    }
  }

  // atoi does not read past a slash.
  lemma AtoiStopsAtSlash(s: string, rest: string)
    requires '/' !in s && (rest == "" || rest[0] == '/')
    ensures Atoi(s + rest) == Atoi(s)
  {
    var t := SkipSpaces(s);
    SkipThenSlash(s, rest);
    SignThenSlash(t, rest);
    DigitsThenSlash(AfterSign(t), rest);
    assert ScanNumber(s + rest).digits == ScanNumber(s).digits;
  }

  /// What strtoul and atoi accept

  // The number a text says: blanks, a sign, digits. What does not fit in 64 bits is the largest
  // number that does, and a minus sign counts down from 2^64.
  predicate SaysNumber(s: string, blanks: string, sign: string, digits: string, n: nat) {
    && s == blanks + (sign + digits) && AllSpace(blanks) && sign in ["", "+", "-"]
    && digits != "" && AllDigits(digits) && n < 0x1_0000_0000_0000_0000
    && (if ValueOf(digits) >= 0x1_0000_0000_0000_0000 then n == 0xFFFF_FFFF_FFFF_FFFF
        else if sign == "-" then n + ValueOf(digits) in [0, 0x1_0000_0000_0000_0000]
        else n == ValueOf(digits))
  }

  lemma DigitsOnly(digits: string)
    requires AllDigits(digits)
    ensures DigitPrefix(digits) == |digits|
  {
    DigitPrefixStops(digits, "");
    assert digits + "" == digits;
  }

  lemma ScanParts(blanks: string, sign: string, digits: string)
    requires AllSpace(blanks) && sign in ["", "+", "-"] && digits != "" && AllDigits(digits)
    ensures ScanNumber(blanks + (sign + digits)) == Scan(sign == "-", digits, "")
  {
    var t := sign + digits;
    SkipLeading(blanks, t);
    assert sign == "" ==> t == digits;
    assert AfterSign(t) == digits;
    DigitsOnly(digits);
    assert digits[..|digits|] == digits && digits[|digits|..] == "";
  }

  lemma ScanPartsThen(blanks: string, sign: string, digits: string, rest: string)
    requires AllSpace(blanks) && sign in ["", "+", "-"] && digits != "" && AllDigits(digits)
    requires rest == "" || !IsDigit(rest[0])
    ensures ScanNumber(blanks + (sign + (digits + rest))) == Scan(sign == "-", digits, rest)
  {
    var u := digits + rest;
    SkipLeading(blanks, sign + u);
    assert sign == "" ==> sign + u == u;
    assert u[0] == digits[0];
    assert AfterSign(sign + u) == u;
    DigitPrefixStops(digits, rest);
    assert u[..|digits|] == digits && u[|digits|..] == rest;
  }

  lemma NumberRead(s: string, blanks: string, sign: string, digits: string, n: nat)
    requires SaysNumber(s, blanks, sign, digits, n)
    ensures Strtoul(s) == Some(n)
  {
    ScanParts(blanks, sign, digits);
  }

  lemma SignPart(t: string) returns (sign: string)
    ensures sign in ["", "+", "-"] && t == sign + AfterSign(t)
    ensures sign == "-" <==> t != "" && t[0] == '-'
  {
    sign := if t != "" && t[0] == '-' then "-" else if t != "" && t[0] == '+' then "+" else "";
  }

  lemma DigitPart(u: string)
    ensures u[..DigitPrefix(u)] + u[DigitPrefix(u)..] == u
  {
  }

  lemma BlankPart(s: string) returns (blanks: string)
    ensures AllSpace(blanks) && s == blanks + SkipSpaces(s)
  {
    SkipIsSuffix(s);
    blanks := s[..|s| - |SkipSpaces(s)|];
  }

  lemma ScannedParts(s: string) returns (blanks: string, sign: string)
    ensures AllSpace(blanks) && sign in ["", "+", "-"]
    ensures var scan := ScanNumber(s);
            s == blanks + (sign + (scan.digits + scan.rest)) && (scan.negative <==> sign == "-")
  {
    blanks := BlankPart(s);
    sign := SignPart(SkipSpaces(s));
    DigitPart(AfterSign(SkipSpaces(s)));
  }

  lemma ReadNumber(s: string)
    requires Strtoul(s).Some?
    ensures exists blanks, sign, digits :: SaysNumber(s, blanks, sign, digits, Strtoul(s).value)
  {
    var blanks, sign := ScannedParts(s);
    var digits := ScanNumber(s).digits;
    assert digits + "" == digits;
    assert SaysNumber(s, blanks, sign, digits, Strtoul(s).value);
  }

  // strtoul, with the test of its end, accepts just these texts, and reads them so.
  lemma StrtoulIff(s: string, n: nat)
    ensures Strtoul(s) == Some(n) <==> exists blanks, sign, digits :: SaysNumber(s, blanks, sign, digits, n)
  {
    if Strtoul(s) == Some(n) {
      ReadNumber(s);
    }
    if blanks, sign, digits :| SaysNumber(s, blanks, sign, digits, n) {
      NumberRead(s, blanks, sign, digits, n);
    }
  }

  // What a long cannot hold is the nearest that it can, and of that an int keeps the low 32 bits.
  predicate KeptByInt(x: int, n: int) {
    && -0x8000_0000 <= n < 0x8000_0000
    && (if 0x8000_0000_0000_0000 <= x then n == -1
        else if x < -0x8000_0000_0000_0000 then n == 0
        else (x - n) % 0x1_0000_0000 == 0)
  }

  lemma ToIntKeeps(x: int)
    ensures KeptByInt(x, ToInt(x))
  {
  }

  // atoi reads blanks, a sign and digits, and nothing behind them.
  lemma AtoiMeans(blanks: string, sign: string, digits: string, rest: string)
    requires AllSpace(blanks) && sign in ["", "+", "-"] && digits != "" && AllDigits(digits)
    requires rest == "" || !IsDigit(rest[0])
    ensures var v: int := ValueOf(digits);
            KeptByInt(if sign == "-" then -v else v, Atoi(blanks + (sign + (digits + rest))))
  {
    var v: int := ValueOf(digits);
    ScanPartsThen(blanks, sign, digits, rest);
    ToIntKeeps(if sign == "-" then -v else v);
  }

  lemma AtoiOfNoNumber(blanks: string, sign: string, rest: string)
    requires AllSpace(blanks) && sign in ["", "+", "-"]
    requires rest == "" || (!IsDigit(rest[0]) && (sign != "" || (rest[0] != '+' && rest[0] != '-' && !IsSpace(rest[0]))))
    ensures Atoi(blanks + (sign + rest)) == 0
  {
    SkipLeading(blanks, sign + rest);
    assert sign == "" ==> sign + rest == rest;
    assert AfterSign(sign + rest) == rest;
  }
}
