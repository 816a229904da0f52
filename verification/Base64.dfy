/** The Base64 decoder of src/parser.c against the encoding of section 4 of RFC 4648. */
module Base64 {
  import opened EventTypes
  import opened Text

  // What init_base64_table stores for a character; '=' is tabled as a zero sextet.
  function Sextet(c: char): (r: Option<nat>)
    ensures r.Some? ==> r.value < 64
  {
    if 'A' <= c <= 'Z' then Some((c - 'A') as nat)
    else if 'a' <= c <= 'z' then Some((c - 'a') as nat + 26)
    else if '0' <= c <= '9' then Some((c - '0') as nat + 52)
    else if c == '+' then Some(62)
    else if c == '/' then Some(63)
    else if c == '=' then Some(0)
    else None
  }

  function TableEntry(c: char): int {
    match Sextet(c) case None => -1 case Some(v) => v
  }

  const UPPER := "ABCDEFGHIJKLMNOPQRSTUVWXYZ"
  const LOWER := "abcdefghijklmnopqrstuvwxyz"
  const NUMERALS := "0123456789"
  const ALPHABET := UPPER + LOWER + NUMERALS + "+/"

  // The digit for a sextet (table 1 of RFC 4648).
  function Digit(v: nat): (c: char)
    requires v < 64
    ensures Sextet(c) == Some(v) && c != '=' && !IsSpace(c)
  {
    if v < 26 then 'A' + v as char
    else if v < 52 then 'a' + (v - 26) as char
    else if v < 62 then '0' + (v - 52) as char
    else if v == 62 then '+'
    else '/'
  }

  lemma DigitIsAlphabet(v: nat)
    requires v < 64
    ensures ALPHABET[v] == Digit(v)
  {
  }

  // The table as the code keeps it: -1 for a character that ends the data.
  method InitTable() returns (table: array<int>)
    ensures fresh(table) && table.Length == 256
    ensures forall c: nat | c < 256 :: table[c] == TableEntry(c as char)
  {
    table := new int[256](_ => -1);
    for i := 0 to |ALPHABET|
      invariant forall c: nat | c < 256 ::
                  table[c] == match Sextet(c as char)
                              case None => -1
                              case Some(v) => if v < i && c as char != '=' then v else -1
    {
      DigitIsAlphabet(i);
      table[ALPHABET[i] as nat] := i;
    }
    table['=' as nat] := 0;
  }

  type Sextets = x: seq<nat> | forall i | 0 <= i < |x| :: x[i] < 64

  // The sextets of the symbols before the first character that is neither space nor tabled.
  function SextetsOf(s: string): (x: Sextets) {
    if s == "" then []
    else if IsSpace(s[0]) then SextetsOf(s[1..])
    else if Sextet(s[0]).None? then []
    else [Sextet(s[0]).value] + SextetsOf(s[1..])
  }

  /// Decoding by blocks of four

  // The three bytes of a block of four sextets.
  function First(a: nat, b: nat): Byte
    requires a < 64 && b < 64
  {
    a * 4 + b / 16
  }

  function Second(b: nat, c: nat): Byte
    requires b < 64 && c < 64
  {
    b % 16 * 16 + c / 4
  }

  function Third(c: nat, d: nat): Byte
    requires c < 64 && d < 64
  {
    c % 4 * 64 + d
  }

  function Blocks(x: Sextets): seq<Byte> {
    if |x| < 2 then []
    else if |x| == 2 then [First(x[0], x[1])]
    else if |x| == 3 then [First(x[0], x[1]), Second(x[1], x[2])]
    else [First(x[0], x[1]), Second(x[1], x[2]), Third(x[2], x[3])] + Blocks(x[4..])
  }

  // The number of sextets of x in an unfinished block.
  function Phase(x: Sextets): (r: nat)
    ensures r < 4
  {
    if |x| < 4 then |x| else Phase(x[4..])
  }

  // The bits of x that its blocks have not used up.
  lemma {:induction false} BitsLeft(x: Sextets)
    ensures 6 * |x| - 8 * |Blocks(x)| == if Phase(x) == 0 then 0 else 8 - 2 * Phase(x)
  {
    if |x| >= 4 {
      BitsLeft(x[4..]);
    }
  }

  // n sextets make three quarters of n bytes, rounded down, so that no byte needs more bits than
  // there are.
  lemma BlocksLength(x: Sextets)
    ensures |Blocks(x)| == 3 * |x| / 4 && 8 * |Blocks(x)| <= 6 * |x|
  {
    BitsLeft(x);
  }

  // The byte that one more sextet completes.
  function NextByte(x: Sextets, d: nat): Byte
    requires Phase(x) != 0 && d < 64
  {
    var last := x[|x| - 1];
    if Phase(x) == 1 then First(last, d)
    else if Phase(x) == 2 then Second(last, d)
    else Third(last, d)
  }

  // A block of four sextets in front.
  lemma BlocksFront(a: nat, b: nat, c: nat, d: nat, rest: Sextets)
    requires a < 64 && b < 64 && c < 64 && d < 64
    ensures Blocks([a, b, c, d] + rest) == [First(a, b), Second(b, c), Third(c, d)] + Blocks(rest)
  {
    assert ([a, b, c, d] + rest)[4..] == rest;
  }

  lemma NextByteBehind(a: nat, b: nat, c: nat, e: nat, rest: Sextets, d: nat)
    requires a < 64 && b < 64 && c < 64 && e < 64 && d < 64 && Phase(rest) != 0
    ensures Phase([a, b, c, e] + rest) == Phase(rest)
    ensures NextByte([a, b, c, e] + rest, d) == NextByte(rest, d)
  {
    assert ([a, b, c, e] + rest)[4..] == rest;
  }

  lemma {:induction false} BlocksStep(x: Sextets, d: nat)
    requires d < 64
    ensures Blocks(x + [d]) == if Phase(x) == 0 then Blocks(x) else Blocks(x) + [NextByte(x, d)]
  {
    if |x| >= 4 {
      var rest: Sextets := x[4..];
      BlocksStep(rest, d);
      assert x == [x[0], x[1], x[2], x[3]] + rest;
      assert x + [d] == [x[0], x[1], x[2], x[3]] + (rest + [d]);
      BlocksFront(x[0], x[1], x[2], x[3], rest);
      BlocksFront(x[0], x[1], x[2], x[3], rest + [d]);
      if Phase(rest) != 0 {
        NextByteBehind(x[0], x[1], x[2], x[3], rest, d);
      }
    }
  }

  function Decode(s: string): Option<seq<Byte>> {
    var bytes := Blocks(SextetsOf(s));
    if |bytes| <= EVENT_PAYLOAD_MAX then Some(bytes) else None
  }

  lemma DecodeFailsIff(s: string)
    ensures Decode(s).None? <==> 4096 < 3 * |SextetsOf(s)| / 4
  {
    BlocksLength(SextetsOf(s));
  }

  /// Decoding as one long number

  function Value(x: Sextets): nat {
    if x == [] then 0 else Value(x[..|x| - 1]) * 64 + x[|x| - 1]
  }

  // v without its k lowest bits.
  function Shift(v: int, k: nat): int
    decreases k
  {
    if k == 0 then v else Shift(v / 2, k - 1)
  }

  lemma ShiftSix(v: int, d: nat, k: nat)
    requires d < 64
    ensures Shift(v * 64 + d, k + 6) == Shift(v, k)
  {
    var w := v * 64 + d;
    assert Shift(w, k + 6) == Shift(w / 2, k + 5) == Shift(w / 2 / 2, k + 4);
    assert Shift(w / 2 / 2, k + 4) == Shift(w / 2 / 2 / 2, k + 3) == Shift(w / 2 / 2 / 2 / 2, k + 2);
    assert Shift(w / 2 / 2 / 2 / 2, k + 2) == Shift(w / 2 / 2 / 2 / 2 / 2, k + 1) == Shift(w / 2 / 2 / 2 / 2 / 2 / 2, k);
    assert w / 2 / 2 / 2 / 2 / 2 / 2 == v;
  }

  lemma ShiftSmall(v: int)
    ensures Shift(v, 0) == v && Shift(v, 2) == v / 4 && Shift(v, 4) == v / 16
  {
    assert Shift(v, 2) == Shift(v / 2, 1) == Shift(v / 2 / 2, 0);
    assert Shift(v, 4) == Shift(v / 2, 3) == Shift(v / 2 / 2, 2) == Shift(v / 2 / 2 / 2, 1) == Shift(v / 2 / 2 / 2 / 2, 0);
  }

  // The byte in the low bits of a number, for each of the three positions.
  lemma LowByte(a: nat, b: nat)
    requires b < 256
    ensures (a * 256 + b) % 256 == b
  {
  }

  lemma FirstCut(v: nat, last: nat, d: nat)
    requires last < 64 && d < 64
    ensures (v * 4096 + last * 64 + d) / 16 % 256 == First(last, d)
  {
    assert v * 4096 + last * 64 + d == 16 * (v * 256 + First(last, d)) + d % 16;
    LowByte(v, First(last, d));
  }

  lemma SecondCut(v: nat, last: nat, d: nat)
    requires last < 64 && d < 64
    ensures (v * 4096 + last * 64 + d) / 4 % 256 == Second(last, d)
  {
    assert v * 4096 + last * 64 + d == 4 * ((v * 4 + last / 16) * 256 + Second(last, d)) + d % 4;
    LowByte(v * 4 + last / 16, Second(last, d));
  }

  lemma ThirdCut(v: nat, last: nat, d: nat)
    requires last < 64 && d < 64
    ensures (v * 4096 + last * 64 + d) % 256 == Third(last, d)
  {
    LowByte(v * 16 + last / 4, Third(last, d));
  }

  // The byte that one more sextet completes, cut out of the number.
  lemma NextByteIsDigit(x: Sextets, d: nat, k: nat)
    requires Phase(x) != 0 && d < 64 && k == 2 * (3 - Phase(x))
    ensures NextByte(x, d) == Shift(Value(x) * 64 + d, k) % 256
  {
    var v := Value(x[..|x| - 1]);
    var last := x[|x| - 1];
    ShiftSmall(Value(x) * 64 + d);
    assert Value(x) * 64 + d == v * 4096 + last * 64 + d;
    if Phase(x) == 1 {
      FirstCut(v, last, d);
    } else if Phase(x) == 2 {
      SecondCut(v, last, d);
    } else {
      ThirdCut(v, last, d);
    }
  }

  lemma OldDigit(x: Sextets, d: nat, k: nat)
    requires d < 64
    ensures Shift(Value(x) * 64 + d, k + 6) % 256 == Shift(Value(x), k) % 256
  {
    ShiftSix(Value(x), d, k);
  }

  // A byte of a longer string is one of the shorter one or the one that the last sextet completes.
  lemma OldOrNext(x: Sextets, d: nat, i: nat, k: nat)
    requires d < 64 && i < |Blocks(x + [d])| && 8 * (i + 1) + k == 6 * |x + [d]|
    ensures if i < |Blocks(x)| then 6 <= k && Blocks(x + [d])[i] == Blocks(x)[i]
            else Phase(x) != 0 && k == 2 * (3 - Phase(x)) && Blocks(x + [d])[i] == NextByte(x, d)
  {
    BitsLeft(x);
    BlocksStep(x, d);
  }

  // Block decoding yields the base-256 digits of the whole sextet string read as one number:
  // byte i is what lies above the k bits that follow it.
  lemma {:induction false} BlocksAreDigits(x: Sextets, i: nat, k: nat)
    requires i < |Blocks(x)| && 8 * (i + 1) + k == 6 * |x|
    ensures Blocks(x)[i] == Shift(Value(x), k) % 256
    decreases |x|
  {
    var before, d := x[..|x| - 1], x[|x| - 1];
    assert x == before + [d];
    OldOrNext(before, d, i, k);
    if i < |Blocks(before)| {
      BlocksAreDigits(before, i, k - 6);
      OldDigit(before, d, k - 6);
    } else {
      NextByteIsDigit(before, d, k);
    }
  }

  /// The streaming decoder

  // A 32-bit int keeps the lowest 32 bits, as a signed number.
  function Wrap32(v: int): int {
    (v + 0x8000_0000) % 0x1_0000_0000 - 0x8000_0000
  }

  lemma WrapStep(v: int, d: int)
    ensures Wrap32(Wrap32(v) * 64 + d) == Wrap32(v * 64 + d)
  {
    var k := (v + 0x8000_0000) / 0x1_0000_0000;
    assert Wrap32(v) == v - k * 0x1_0000_0000;
    assert Wrap32(v) * 64 + d + 0x8000_0000 == (v * 64 + d + 0x8000_0000) - (64 * k) * 0x1_0000_0000;
  }

  lemma DropMultiple(a: int, q: int)
    ensures (a - 256 * q) % 256 == a % 256
  {
  }

  lemma DivideMultiple(a: int, q: int)
    ensures (a - 4 * q) / 4 == a / 4 - q && (a - 16 * q) / 16 == a / 16 - q
  {
  }

  // The bits that are taken lie in the part that wrapping keeps.
  lemma WrapKeepsByte(v: int, k: nat)
    requires k == 0 || k == 2 || k == 4
    ensures Shift(Wrap32(v), k) % 256 == Shift(v, k) % 256
  {
    ShiftSmall(v);
    ShiftSmall(Wrap32(v));
    var q := (v + 0x8000_0000) / 0x1_0000_0000;
    assert Wrap32(v) == v - q * 0x1_0000_0000;
    if k == 0 {
      DropMultiple(v, q * 0x100_0000);
    } else if k == 2 {
      DivideMultiple(v, q * 0x4000_0000);
      DropMultiple(v / 4, q * 0x40_0000);
    } else {
      DivideMultiple(v, q * 0x1000_0000);
      DropMultiple(v / 16, q * 0x10_0000);
    }
  }

  // The decoder's variables after the sextets x.
  ghost predicate Tracks(x: Sextets, val: int, bits: int, out: seq<Byte>) {
    out == Blocks(x) && val == Wrap32(Value(x)) && bits == 6 * |x| - 8 * |out| - 8
  }

  lemma EmittedByte(x: Sextets, d: nat, k: nat)
    requires Phase(x) != 0 && d < 64 && k == 2 * (3 - Phase(x))
    ensures NextByte(x, d) == Shift(Wrap32(Value(x) * 64 + d), k) % 256
  {
    NextByteIsDigit(x, d, k);
    WrapKeepsByte(Value(x) * 64 + d, k);
  }

  lemma StepValue(x: Sextets, d: nat)
    requires d < 64
    ensures Value(x + [d]) == Value(x) * 64 + d
    ensures Wrap32(Wrap32(Value(x)) * 64 + d) == Wrap32(Value(x + [d]))
  {
    assert (x + [d])[..|x|] == x;
    WrapStep(Value(x), d);
  }

  lemma StepBytes(x: Sextets, d: nat, bits: int)
    requires d < 64 && bits == 6 * |x| - 8 * |Blocks(x)| - 2
    ensures bits < 0 ==> Blocks(x + [d]) == Blocks(x)
    ensures 0 <= bits ==>
              && (bits == 0 || bits == 2 || bits == 4)
              && Phase(x) != 0 && bits == 2 * (3 - Phase(x))
              && Blocks(x + [d]) == Blocks(x) + [NextByte(x, d)]
  {
    BitsLeft(x);
    BlocksStep(x, d);
  }

  lemma Absorb(x: Sextets, d: nat, val: int, bits: int, out: seq<Byte>)
    requires d < 64 && Tracks(x, val, bits, out)
    ensures var val' := Wrap32(val * 64 + d);
            if bits + 6 < 0 then Tracks(x + [d], val', bits + 6, out)
            else Tracks(x + [d], val', bits - 2, out + [Shift(val', bits + 6) % 256])
  {
    StepValue(x, d);
    StepBytes(x, d, bits + 6);
    if 0 <= bits + 6 {
      EmittedByte(x, d, bits + 6);
    }
  }

  // What the table's entry for the next character says about the sextets to come.
  lemma NextSymbol(s: string, entry: int)
    requires s != "" && entry == TableEntry(s[0])
    ensures IsSpace(s[0]) ==> SextetsOf(s) == SextetsOf(s[1..])
    ensures !IsSpace(s[0]) && entry == -1 ==> SextetsOf(s) == []
    ensures !IsSpace(s[0]) && entry != -1 ==> 0 <= entry < 64 && SextetsOf(s) == [entry] + SextetsOf(s[1..])
  {
  }

  lemma Regroup(x: Sextets, d: nat, rest: Sextets)
    requires d < 64
    ensures x + ([d] + rest) == (x + [d]) + rest
  {
  }

  lemma LongerStillFails(x: Sextets, rest: Sextets)
    ensures |Blocks(x)| <= |Blocks(x + rest)|
  {
    BlocksLength(x);
    BlocksLength(x + rest);
  }

  lemma DecodeOf(input: string, x: Sextets, out: seq<Byte>, rest: Sextets)
    requires out == Blocks(x) && SextetsOf(input) == x + rest
    ensures |out| <= EVENT_PAYLOAD_MAX && rest == [] ==> Decode(input) == Some(out)
    ensures EVENT_PAYLOAD_MAX < |out| ==> Decode(input) == None
  {
    if rest == [] {
      assert x + rest == x;
    }
    LongerStillFails(x, rest);
  }

  // What reading the character at p does to the sextets read so far and those to come.
  lemma SymbolAt(input: string, p: nat, x: Sextets, entry: int)
    requires p < |input| && entry == TableEntry(input[p]) && SextetsOf(input) == x + SextetsOf(input[p..])
    ensures IsSpace(input[p]) ==> SextetsOf(input) == x + SextetsOf(input[p + 1..])
    ensures !IsSpace(input[p]) && entry == -1 ==> SextetsOf(input) == x + []
    ensures !IsSpace(input[p]) && entry != -1 ==>
              0 <= entry < 64 && SextetsOf(input) == (x + [entry]) + SextetsOf(input[p + 1..])
  {
    assert input[p..][0] == input[p] && input[p..][1..] == input[p + 1..];
    NextSymbol(input[p..], entry);
    if !IsSpace(input[p]) && entry != -1 {
      Regroup(x, entry, SextetsOf(input[p + 1..]));
    }
  }

  // decode_base64. The accumulator is never masked and wraps; `bits` counts what it holds beyond
  // the bytes already written, minus eight.
  method DecodeInto(input: string, table: array<int>, output: array<Byte>) returns (ok: bool, outLen: nat)
    requires table.Length == 256 && output.Length == EVENT_PAYLOAD_MAX
    requires forall c: nat | c < 256 :: table[c] == TableEntry(c as char)
    requires forall i | 0 <= i < |input| :: input[i] as nat < 256
    modifies output
    ensures ok <==> Decode(input).Some?
    ensures ok ==> outLen <= output.Length && Decode(input) == Some(output[..outLen])
  {
    var outIndex := 0;
    var val := 0;
    var bits := -8;
    var p := 0;
    ghost var x: Sextets := [];
    while p < |input|
      invariant p <= |input| && outIndex <= output.Length
      invariant SextetsOf(input) == x + SextetsOf(input[p..])
      invariant Tracks(x, val, bits, output[..outIndex])
      decreases |input| - p
    {
      var c := input[p];
      SymbolAt(input, p, x, table[c as nat]);
      if IsSpace(c) {
        p := p + 1;
        continue;
      }
      var decoded := table[c as nat];
      if decoded == -1 {
        break;
      }
      Absorb(x, decoded, val, bits, output[..outIndex]);
      x := x + [decoded];
      val := Wrap32(val * 64 + decoded);
      bits := bits + 6;
      if bits >= 0 {
        if outIndex >= EVENT_PAYLOAD_MAX {
          ghost var out := output[..outIndex] + [Shift(val, bits) % 256];
          DecodeOf(input, x, out, SextetsOf(input[p + 1..]));
          return false, 0;
        }
        ghost var before := output[..outIndex];
        output[outIndex] := Shift(val, bits) % 256;
        assert output[..outIndex + 1] == before + [Shift(val, bits) % 256];
        outIndex := outIndex + 1;
        bits := bits - 8;
      }
      p := p + 1;
    }
    DecodeOf(input, x, output[..outIndex], []);
    return true, outIndex;
  }

  /// Round trips

  function Split(p: Byte, q: Byte, r: Byte): Sextets {
    [p / 4, p % 4 * 16 + q / 16, q % 16 * 4 + r / 64, r % 64]
  }

  function EncodeSextets(d: seq<Byte>): (x: Sextets) {
    if d == [] then []
    else if |d| == 1 then [d[0] / 4, d[0] % 4 * 16]
    else if |d| == 2 then [d[0] / 4, d[0] % 4 * 16 + d[1] / 16, d[1] % 16 * 4]
    else Split(d[0], d[1], d[2]) + EncodeSextets(d[3..])
  }

  function Digits(x: Sextets): string {
    seq(|x|, i requires 0 <= i < |x| => Digit(x[i]))
  }

  function ZeroSextets(n: nat): (z: Sextets)
    ensures |z| == n && forall i | 0 <= i < n :: z[i] == 0
  {
    seq(n, _ => 0)
  }

  function Zeros(n: nat): seq<Byte> {
    seq(n, _ => 0)
  }

  function Padding(d: seq<Byte>): (n: nat)
    ensures n <= 2
  {
    if |d| >= 3 then Padding(d[3..]) else if |d| == 0 then 0 else 3 - |d|
  }

  lemma {:induction false} PaddingOfLength(d: seq<Byte>, k: nat, r: nat)
    requires |d| == 3 * k + r && r < 3
    ensures Padding(d) == if r == 0 then 0 else 3 - r
    decreases k
  {
    if k != 0 {
      PaddingOfLength(d[3..], k - 1, r);
    }
  }

  function Pad(n: nat): string {
    seq(n, _ => '=')
  }

  // The encoding without and with the padding of section 3.2 of RFC 4648.
  function Encode(d: seq<Byte>): string { Digits(EncodeSextets(d)) }
  function EncodePadded(d: seq<Byte>): string { Encode(d) + Pad(Padding(d)) }

  lemma JoinSplit(p: Byte, q: Byte, r: Byte)
    ensures var s := Split(p, q, r);
            First(s[0], s[1]) == p && Second(s[1], s[2]) == q && Third(s[2], s[3]) == r
  {
  }

  lemma BlocksOfSplit(p: Byte, q: Byte, r: Byte, rest: Sextets)
    ensures Blocks(Split(p, q, r) + rest) == [p, q, r] + Blocks(rest)
  {
    var s := Split(p, q, r);
    BlocksFront(s[0], s[1], s[2], s[3], rest);
    JoinSplit(p, q, r);
  }

  // The unfinished blocks of one and of two bytes.
  lemma JoinOne(p: Byte)
    ensures First(p / 4, p % 4 * 16) == p
  {
  }

  lemma ZeroSecond(c: nat)
    requires c < 4
    ensures Second(c * 16, 0) == 0
  {
  }

  lemma JoinTwo(p: Byte, q: Byte)
    ensures First(p / 4, p % 4 * 16 + q / 16) == p
    ensures Second(p % 4 * 16 + q / 16, q % 16 * 4) == q
  {
  }

  lemma PaddedTwice(a: nat, b: nat, z: nat)
    requires a < 64 && b < 64 && z < 64
    ensures Blocks([a, b]) == [First(a, b)]
    ensures Blocks([a, b] + [z, z]) == [First(a, b), Second(b, z), Third(z, z)]
  {
    assert [a, b] + [z, z] == [a, b, z, z] + [];
    BlocksFront(a, b, z, z, []);
  }

  lemma BlocksOfOne(p: Byte)
    ensures Blocks(EncodeSextets([p])) == [p]
  {
    JoinOne(p);
  }

  lemma ZeroTwice(a: nat, c: nat)
    requires a < 64 && c < 4
    ensures Blocks([a, c * 16] + [0, 0]) == [First(a, c * 16), 0, 0]
  {
    ZeroSecond(c);
    PaddedTwice(a, c * 16, 0);
  }

  lemma BlocksOfOnePadded(p: Byte)
    ensures Blocks(EncodeSextets([p]) + [0, 0]) == [p, 0, 0]
  {
    JoinOne(p);
    ZeroTwice(p / 4, p % 4);
  }

  lemma PaddedOnce(a: nat, b: nat, c: nat, z: nat)
    requires a < 64 && b < 64 && c < 64 && z < 64
    ensures Blocks([a, b, c]) == [First(a, b), Second(b, c)]
    ensures Blocks([a, b, c] + [z]) == [First(a, b), Second(b, c), Third(c, z)]
  {
    assert [a, b, c] + [z] == [a, b, c, z] + [];
    BlocksFront(a, b, c, z, []);
  }

  lemma ZeroThird(c: nat)
    requires c < 16
    ensures Third(c * 4, 0) == 0
  {
  }

  lemma BlocksOfTwo(p: Byte, q: Byte)
    ensures Blocks(EncodeSextets([p, q])) == [p, q]
  {
    JoinTwo(p, q);
  }

  lemma ZeroOnce(a: nat, b: nat, c: nat)
    requires a < 64 && b < 64 && c < 16
    ensures Blocks([a, b, c * 4] + [0]) == [First(a, b), Second(b, c * 4), 0]
  {
    ZeroThird(c);
    PaddedOnce(a, b, c * 4, 0);
  }

  lemma EncodesTwo(p: Byte, q: Byte)
    ensures EncodeSextets([p, q]) == [p / 4, p % 4 * 16 + q / 16, q % 16 * 4]
  {
  }

  lemma PaddedTwo(p: Byte, q: Byte, a: nat, b: nat, c: nat)
    requires a < 64 && b < 64 && c < 16 && First(a, b) == p && Second(b, c * 4) == q
    ensures Blocks([a, b, c * 4] + [0]) == [p, q, 0]
  {
    ZeroOnce(a, b, c);
  }

  lemma BlocksOfTwoPadded(p: Byte, q: Byte)
    ensures Blocks(EncodeSextets([p, q]) + [0]) == [p, q, 0]
  {
    EncodesTwo(p, q);
    JoinTwo(p, q);
    PaddedTwo(p, q, p / 4, p % 4 * 16 + q / 16, q % 16);
  }

  lemma {:induction false} BlocksInvertEncode(d: seq<Byte>)
    ensures Blocks(EncodeSextets(d)) == d
  {
    if |d| >= 3 {
      BlocksInvertEncode(d[3..]);
      BlocksOfSplit(d[0], d[1], d[2], EncodeSextets(d[3..]));
      assert d == [d[0], d[1], d[2]] + d[3..];
    } else if |d| == 2 {
      assert d == [d[0], d[1]];
      BlocksOfTwo(d[0], d[1]);
    } else if |d| == 1 {
      assert d == [d[0]];
      BlocksOfOne(d[0]);
    }
  }

  lemma BlocksOfSplitThen(p: Byte, q: Byte, r: Byte, x: Sextets, z: Sextets)
    ensures Blocks((Split(p, q, r) + x) + z) == [p, q, r] + Blocks(x + z)
  {
    assert (Split(p, q, r) + x) + z == Split(p, q, r) + (x + z);
    BlocksOfSplit(p, q, r, x + z);
  }

  // Decoding the padding as zero sextets appends one zero byte for each.
  predicate ZerosAppended(d: seq<Byte>) {
    Blocks(EncodeSextets(d) + ZeroSextets(Padding(d))) == d + Zeros(Padding(d))
  }

  lemma EncodesThree(p: Byte, q: Byte, r: Byte, rest: seq<Byte>)
    ensures EncodeSextets([p, q, r] + rest) == Split(p, q, r) + EncodeSextets(rest)
    ensures Padding([p, q, r] + rest) == Padding(rest)
  {
    assert ([p, q, r] + rest)[3..] == rest;
  }

  lemma PaddedStep(p: Byte, q: Byte, r: Byte, rest: seq<Byte>)
    requires ZerosAppended(rest)
    ensures ZerosAppended([p, q, r] + rest)
  {
    var d := [p, q, r] + rest;
    assert d[3..] == rest;
    EncodesThree(p, q, r, rest);
    BlocksOfSplitThen(p, q, r, EncodeSextets(rest), ZeroSextets(Padding(rest)));
    assert d + Zeros(Padding(rest)) == [p, q, r] + (rest + Zeros(Padding(rest)));
  }

  lemma PaddingOfTwo(p: Byte, q: Byte)
    ensures ZeroSextets(Padding([p, q])) == [0] && [p, q] + Zeros(Padding([p, q])) == [p, q, 0]
  {
    assert Padding([p, q]) == 1;
  }

  lemma PaddedEnd(d: seq<Byte>, z: Sextets, zeros: seq<Byte>)
    requires ZeroSextets(Padding(d)) == z && d + Zeros(Padding(d)) == zeros
    requires Blocks(EncodeSextets(d) + z) == zeros
    ensures ZerosAppended(d)
  {
  }

  lemma PaddingOfOne(p: Byte)
    ensures ZeroSextets(Padding([p])) == [0, 0] && [p] + Zeros(Padding([p])) == [p, 0, 0]
  {
    assert Padding([p]) == 2;
  }

  lemma {:induction false} BlocksOfPadded(d: seq<Byte>)
    ensures ZerosAppended(d)
  {
    if |d| >= 3 {
      BlocksOfPadded(d[3..]);
      PaddedStep(d[0], d[1], d[2], d[3..]);
      assert d == [d[0], d[1], d[2]] + d[3..];
    } else if |d| == 2 {
      assert d == [d[0], d[1]];
      PaddingOfTwo(d[0], d[1]);
      BlocksOfTwoPadded(d[0], d[1]);
      PaddedEnd(d, [0], [d[0], d[1], 0]);
    } else if |d| == 1 {
      assert d == [d[0]];
      PaddingOfOne(d[0]);
      BlocksOfOnePadded(d[0]);
      PaddedEnd(d, [0, 0], [d[0], 0, 0]);
    }
  }

  // Whitespace taken out.
  function Squeeze(s: string): string {
    if s == "" then "" else (if IsSpace(s[0]) then "" else [s[0]]) + Squeeze(s[1..])
  }

  lemma {:induction false} NothingToSqueeze(s: string)
    requires forall i | 0 <= i < |s| :: !IsSpace(s[i])
    ensures Squeeze(s) == s
  {
    if s != "" {
      NothingToSqueeze(s[1..]);
      assert s == [s[0]] + s[1..];
    }
  }

  predicate EndsData(tail: string) {
    tail == "" || (!IsSpace(tail[0]) && Sextet(tail[0]).None?)
  }

  // The text s is x spelled with whitespace.
  predicate Spells(s: string, x: Sextets) {
    |Squeeze(s)| == |x| && forall i | 0 <= i < |x| :: Sextet(Squeeze(s)[i]) == Some(x[i])
  }

  lemma SpellsRest(s: string, x: Sextets)
    requires s != "" && Spells(s, x)
    ensures if IsSpace(s[0]) then Spells(s[1..], x)
            else x != [] && Sextet(s[0]) == Some(x[0]) && Spells(s[1..], x[1..])
  {
    if IsSpace(s[0]) {
      assert Squeeze(s) == Squeeze(s[1..]);
    } else {
      assert Squeeze(s)[0] == s[0] && Squeeze(s)[1..] == Squeeze(s[1..]);
      assert Sextet(Squeeze(s)[0]) == Some(x[0]);
      assert forall i | 0 <= i < |x[1..]| :: Squeeze(s[1..])[i] == Squeeze(s)[i + 1];
    }
  }

  // The decoder sees the symbols of s through any whitespace and up to any invalid tail.
  lemma {:induction false} SextetsThrough(s: string, x: Sextets, tail: string)
    requires Spells(s, x) && EndsData(tail)
    ensures SextetsOf(s + tail) == x
  {
    if s == "" {
      assert s + tail == tail;
    } else {
      SpellsRest(s, x);
      assert (s + tail)[0] == s[0] && (s + tail)[1..] == s[1..] + tail;
      SextetsThrough(s[1..], if IsSpace(s[0]) then x else x[1..], tail);
    }
  }

  // Every byte string within the limit survives: its unpadded encoding, with whitespace anywhere
  // and any invalid tail, decodes to it.
  lemma RoundTrip(d: seq<Byte>, s: string, tail: string)
    requires |d| <= EVENT_PAYLOAD_MAX && Squeeze(s) == Encode(d) && EndsData(tail)
    ensures Decode(s + tail) == Some(d)
  {
    SextetsThrough(s, EncodeSextets(d), tail);
    BlocksInvertEncode(d);
  }

  // The padded encoding does not: every '=' comes back as a zero byte, and an input whose zero
  // bytes no longer fit is refused.
  lemma PaddedDecode(d: seq<Byte>, s: string, tail: string)
    requires Squeeze(s) == EncodePadded(d) && EndsData(tail)
    ensures Decode(s + tail)
         == if |d| + Padding(d) <= EVENT_PAYLOAD_MAX then Some(d + Zeros(Padding(d))) else None
  {
    SextetsThrough(s, EncodeSextets(d) + ZeroSextets(Padding(d)), tail);
    BlocksOfPadded(d);
  }

  lemma PaddingIffNotMultiple(d: seq<Byte>)
    ensures Padding(d) == 0 <==> |d| % 3 == 0
  {
    PaddingOfLength(d, |d| / 3, |d| % 3);
  }

  // So the padded encoding round-trips exactly for the lengths that need no padding.
  lemma PaddedRoundTripIff(d: seq<Byte>, s: string, tail: string)
    requires |d| <= EVENT_PAYLOAD_MAX && Squeeze(s) == EncodePadded(d) && EndsData(tail)
    ensures Decode(s + tail) == Some(d) <==> |d| % 3 == 0
  {
    PaddedDecode(d, s, tail);
    PaddingIffNotMultiple(d);
    if Padding(d) == 0 {
      assert d + Zeros(0) == d;
    } else {
      assert |d + Zeros(Padding(d))| != |d|;
    }
  }

  // In particular the encodings as they are, with nothing around them.
  lemma PlainRoundTrip(d: seq<Byte>)
    requires |d| <= EVENT_PAYLOAD_MAX
    ensures Decode(Encode(d)) == Some(d)
    ensures Decode(EncodePadded(d)) == Some(d) <==> |d| % 3 == 0
  {
    NothingToSqueeze(Encode(d));
    NothingToSqueeze(EncodePadded(d));
    RoundTrip(d, Encode(d), "");
    PaddedRoundTripIff(d, EncodePadded(d), "");
    assert Encode(d) + "" == Encode(d) && EncodePadded(d) + "" == EncodePadded(d);
  }

  // The shortest failures: every single byte comes back with two zero bytes behind it. The byte 77,
  // for one, is encoded as TQ==.
  lemma OneByteIsNotGivenBack(d: seq<Byte>)
    requires |d| == 1
    ensures Decode(EncodePadded(d)) == Some(d + Zeros(2))
  {
    NothingToSqueeze(EncodePadded(d));
    PaddedDecode(d, EncodePadded(d), "");
    assert EncodePadded(d) + "" == EncodePadded(d);
    assert Padding(d) == 2;
  }

  lemma OneByteEncoded()
    ensures EncodePadded([77]) == "TQ=="
  {
    assert EncodeSextets([77]) == [19, 16];
    assert Padding([77]) == 2;
  }
}
