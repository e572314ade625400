/**
  The stored form of a password (internal/infrastructure/auth/local/password.go): printed by `Hash`, parsed by
  `Verify`. Base64 without padding follows sections 3.2 and 4 of RFC 4648.
 */
module Base64 {
  import opened Prelude

  type Sextet = v: int | 0 <= v < 64

  /** Table 1 of RFC 4648. */
  const UPPER := "ABCDEFGHIJKLMNOPQRSTUVWXYZ"
  const LOWER := "abcdefghijklmnopqrstuvwxyz"
  const OTHER := "0123456789+/"

  function Letter(v: Sextet): char {
    if v < 26 then UPPER[v] else if v < 52 then LOWER[v - 26] else OTHER[v - 52]
  }

  function Digit(v: Sextet): char {
    if v < 26 then ('A' as int + v) as char
    else if v < 52 then ('a' as int + v - 26) as char
    else if v < 62 then ('0' as int + v - 52) as char
    else if v == 62 then '+' else '/'
  }

  function Value(c: char): Option<Sextet> {
    if 'A' <= c <= 'Z' then Some(c as int - 'A' as int)
    else if 'a' <= c <= 'z' then Some(c as int - 'a' as int + 26)
    else if '0' <= c <= '9' then Some(c as int - '0' as int + 52)
    else if c == '+' then Some(62)
    else if c == '/' then Some(63)
    else None
  }

  lemma DigitIsLetter(v: Sextet)
    ensures Digit(v) == Letter(v)
  {
    UpperIs(v);
    LowerIs(v);
  }

  lemma UpperIs(v: Sextet)
    ensures v < 26 ==> UPPER[v] == ('A' as int + v) as char
  {
  }

  lemma LowerIs(v: Sextet)
    ensures 26 <= v < 52 ==> LOWER[v - 26] == ('a' as int + v - 26) as char
  {
  }

  lemma DigitValue(v: Sextet)
    ensures Value(Digit(v)) == Some(v)
    ensures Digit(v) != '$' && Digit(v) != '\r' && Digit(v) != '\n'
  {
  }

  /** Three bytes make four digits; one or two bytes left over make two or three. */
  function Encode(data: Bytes): string {
    if |data| == 0 then ""
    else if |data| == 1 then [Digit(data[0] / 4), Digit(data[0] % 4 * 16)]
    else if |data| == 2 then
      [Digit(data[0] / 4), Digit(data[0] % 4 * 16 + data[1] / 16), Digit(data[1] % 16 * 4)]
    else
      [Digit(data[0] / 4), Digit(data[0] % 4 * 16 + data[1] / 16), Digit(data[1] % 16 * 4 + data[2] / 64), Digit(data[2] % 64)]
      + Encode(data[3..])
  }

  /** Go's decoder skips line breaks and does not insist that unused bits are zero. */
  function DropBreaks(s: string): string {
    if s == "" then ""
    else if s[0] == '\r' || s[0] == '\n' then DropBreaks(s[1..])
    else [s[0]] + DropBreaks(s[1..])
  }

  function DecodeDigits(s: string): Option<Bytes> {
    if |s| == 0 then Some([])
    else if |s| == 1 then None
    else
      var a, b := Value(s[0]), Value(s[1]);
      if a.None? || b.None? then None
      else
        var first: Byte := a.value * 4 + b.value / 16;
        if |s| == 2 then Some([first])
        else
          var c := Value(s[2]);
          if c.None? then None
          else
            var second: Byte := b.value % 16 * 16 + c.value / 4;
            if |s| == 3 then Some([first, second])
            else
              var d, rest := Value(s[3]), DecodeDigits(s[4..]);
              if d.None? || rest.None? then None
              else
                var third: Byte := c.value % 4 * 64 + d.value;
                Some([first, second, third] + rest.value)
  }

  function Decode(s: string): Option<Bytes> {
    DecodeDigits(DropBreaks(s))
  }

  lemma {:induction false} EncodeIsClean(data: Bytes)
    ensures DropBreaks(Encode(data)) == Encode(data) && '$' !in Encode(data)
  {
    var s := Encode(data);
    forall i | 0 <= i < |s| ensures s[i] != '$' && s[i] != '\r' && s[i] != '\n' {
      DigitsOnly(data, i);
    }
    NothingToDrop(s);
  }

  lemma {:induction false} DigitsOnly(data: Bytes, i: nat)
    requires i < |Encode(data)|
    ensures exists v: Sextet :: Encode(data)[i] == Digit(v)
    ensures Encode(data)[i] != '$' && Encode(data)[i] != '\r' && Encode(data)[i] != '\n'
  {
    if |data| >= 3 && i >= 4 {
      assert Encode(data)[i] == Encode(data[3..])[i - 4];
      DigitsOnly(data[3..], i - 4);
    }
  }

  lemma {:induction false} NothingToDrop(s: string)
    requires forall i | 0 <= i < |s| :: s[i] != '\r' && s[i] != '\n'
    ensures DropBreaks(s) == s
  {
    if s != "" {
      NothingToDrop(s[1..]);
    }
  }

  lemma ThreeBytes(a: Byte, b: Byte, c: Byte)
    ensures a / 4 * 4 + (a % 4 * 16 + b / 16) / 16 == a
    ensures (a % 4 * 16 + b / 16) % 16 * 16 + (b % 16 * 4 + c / 64) / 4 == b
    ensures (b % 16 * 4 + c / 64) % 4 * 64 + c % 64 == c
  {
  }

  lemma OneByteRoundTrip(a: Byte)
    ensures DecodeDigits(Encode([a])) == Some([a])
  {
    DigitValue(a / 4);
    DigitValue(a % 4 * 16);
  }

  lemma TwoByteRoundTrip(a: Byte, b: Byte)
    ensures DecodeDigits(Encode([a, b])) == Some([a, b])
  {
    DigitValue(a / 4);
    DigitValue(a % 4 * 16 + b / 16);
    DigitValue(b % 16 * 4);
    ThreeBytes(a, b, 0);
    assert DecodeDigits(Encode([a, b])).value[0] == a && DecodeDigits(Encode([a, b])).value[1] == b;
  }

  lemma ThreeByteRoundTrip(a: Byte, b: Byte, c: Byte, rest: Bytes)
    requires DecodeDigits(Encode(rest)) == Some(rest)
    ensures DecodeDigits(Encode([a, b, c] + rest)) == Some([a, b, c] + rest)
  {
    var data := [a, b, c] + rest;
    assert data[3..] == rest;
    var v0, v1, v2, v3 := a / 4, a % 4 * 16 + b / 16, b % 16 * 4 + c / 64, c % 64;
    DigitValue(v0);
    DigitValue(v1);
    DigitValue(v2);
    DigitValue(v3);
    ThreeBytes(a, b, c);
    var s := [Digit(v0), Digit(v1), Digit(v2), Digit(v3)] + Encode(rest);
    assert Encode(data) == s && s[4..] == Encode(rest);
  }

  lemma {:induction false} DigitsRoundTrip(data: Bytes)
    ensures DecodeDigits(Encode(data)) == Some(data)
  {
    if |data| == 1 {
      OneByteRoundTrip(data[0]);
      assert data == [data[0]];
    } else if |data| == 2 {
      TwoByteRoundTrip(data[0], data[1]);
      assert data == [data[0], data[1]];
    } else if |data| >= 3 {
      DigitsRoundTrip(data[3..]);
      ThreeByteRoundTrip(data[0], data[1], data[2], data[3..]);
      assert data == [data[0], data[1], data[2]] + data[3..];
    }
  }

  // ---------------------------------------------------------------- what an encoding denotes: 24-bit groups

  function ByteAt(data: Bytes, i: nat): nat {
    if i < |data| then data[i] else 0
  }

  function DigitAt(s: string, i: nat): nat {
    if i < |s| && Value(s[i]).Some? then Value(s[i]).value else 0
  }

  /** Three bytes as one number, absent ones as zero. */
  function GroupOfBytes(data: Bytes, g: nat): nat {
    ByteAt(data, 3 * g) * 0x10000 + ByteAt(data, 3 * g + 1) * 0x100 + ByteAt(data, 3 * g + 2)
  }

  /** Four digits as one number, absent ones as zero. */
  function GroupOfDigits(s: string, g: nat): nat {
    DigitAt(s, 4 * g) * 0x40000 + DigitAt(s, 4 * g + 1) * 0x1000 + DigitAt(s, 4 * g + 2) * 0x40 + DigitAt(s, 4 * g + 3)
  }

  predicate AllDigits(s: string) {
    forall i | 0 <= i < |s| :: Value(s[i]).Some?
  }

  lemma LaterBytes(data: Bytes, g: nat)
    requires |data| >= 3 && g > 0
    ensures GroupOfBytes(data, g) == GroupOfBytes(data[3..], g - 1)
  {
  }

  lemma LaterDigits(s: string, g: nat)
    requires |s| >= 4 && g > 0
    ensures GroupOfDigits(s, g) == GroupOfDigits(s[4..], g - 1)
  {
  }

  lemma AllDigitsFour(s: string)
    requires |s| >= 4
    ensures AllDigits(s) <==>
            && Value(s[0]).Some? && Value(s[1]).Some? && Value(s[2]).Some? && Value(s[3]).Some? && AllDigits(s[4..])
  {
    var t := s[4..];
    assert forall i | 4 <= i < |s| :: s[i] == t[i - 4];
    assert forall i | 0 <= i < |t| :: t[i] == s[i + 4];
  }

  /** Of an incomplete last group only the whole bytes count. */
  function WholeBytes(s: string, g: nat): nat {
    if 4 * g + 2 == |s| then GroupOfDigits(s, g) / 0x10000 * 0x10000
    else if 4 * g + 3 == |s| then GroupOfDigits(s, g) / 0x100 * 0x100
    else GroupOfDigits(s, g)
  }

  /**
    A string decodes exactly if it consists of digits and is not one over a multiple of four long. The bytes are the
    numbers its groups of four digits denote.
   */
  lemma {:induction false} DecodeDigitsMeans(s: string)
    ensures DecodeDigits(s).Some? <==> AllDigits(s) && |s| % 4 != 1
    ensures DecodeDigits(s).Some? ==>
            && |DecodeDigits(s).value| == 3 * |s| / 4
            && forall g: nat :: GroupOfBytes(DecodeDigits(s).value, g) == WholeBytes(s, g)
  {
    if |s| >= 4 {
      DecodeDigitsMeans(s[4..]);
      AllDigitsFour(s);
      if DecodeDigits(s).Some? {
        DecodeGroups(s);
      }
    } else if 2 <= |s| {
      DecodeFew(s);
    }
  }

  lemma DecodeFew(s: string)
    requires 2 <= |s| <= 3
    ensures DecodeDigits(s).Some? <==> AllDigits(s)
    ensures DecodeDigits(s).Some? ==>
            |DecodeDigits(s).value| == |s| - 1 && forall g: nat :: GroupOfBytes(DecodeDigits(s).value, g) == WholeBytes(s, g)
  {
    assert AllDigits(s) <==> Value(s[0]).Some? && Value(s[1]).Some? && (|s| == 3 ==> Value(s[2]).Some?);
    if AllDigits(s) {
      var data := DecodeDigits(s).value;
      DropDigits(DigitAt(s, 0), DigitAt(s, 1), DigitAt(s, 2));
      forall g: nat ensures GroupOfBytes(data, g) == WholeBytes(s, g) {
        if g > 0 {
          assert GroupOfBytes(data, g) == 0 && GroupOfDigits(s, g) == 0;
        }
      }
    }
  }

  lemma DropDigits(v0: Sextet, v1: Sextet, v2: Sextet)
    ensures (v0 * 0x40000 + v1 * 0x1000) / 0x10000 == v0 * 4 + v1 / 16
    ensures (v0 * 0x40000 + v1 * 0x1000 + v2 * 0x40) / 0x100 == (v0 * 4 + v1 / 16) * 0x100 + v1 % 16 * 16 + v2 / 4
  {
  }

  lemma DecodeGroups(s: string)
    requires |s| >= 4 && DecodeDigits(s).Some? && DecodeDigits(s[4..]).Some?
    requires |DecodeDigits(s[4..]).value| == 3 * |s[4..]| / 4
    requires forall g: nat :: GroupOfBytes(DecodeDigits(s[4..]).value, g) == WholeBytes(s[4..], g)
    ensures |DecodeDigits(s).value| == 3 * |s| / 4
    ensures forall g: nat :: GroupOfBytes(DecodeDigits(s).value, g) == WholeBytes(s, g)
  {
    var data, rest := DecodeDigits(s).value, DecodeDigits(s[4..]).value;
    assert data[3..] == rest;
    forall g: nat ensures GroupOfBytes(data, g) == WholeBytes(s, g) {
      if g > 0 {
        LaterBytes(data, g);
        LaterDigits(s, g);
        assert GroupOfBytes(rest, g - 1) == WholeBytes(s[4..], g - 1);
      }
    }
  }

  /** A digit is a letter of the alphabet, and its value is the letter's place. */
  lemma ValueIsPlace(c: char)
    ensures Value(c).Some? ==> Letter(Value(c).value) == c
    ensures Value(c).None? ==> forall v: Sextet :: Letter(v) != c
  {
    if Value(c).Some? {
      DigitIsLetter(Value(c).value);
    }
    forall v: Sextet ensures Letter(v) == c ==> Value(c) == Some(v) {
      DigitIsLetter(v);
      DigitValue(v);
    }
  }

  predicate IsBreak(c: char) {
    c == '\r' || c == '\n'
  }

  lemma {:induction false} BreaksDrop(a: string, b: string)
    ensures DropBreaks(a + b) == DropBreaks(a) + DropBreaks(b)
  {
    if a == "" {
      assert a + b == b;
    } else {
      BreaksDrop(a[1..], b);
      assert (a + b)[1..] == a[1..] + b;
    }
  }

  /** Line breaks, and nothing else, are dropped wherever they are. */
  lemma DropBreaksMeans(a: string, c: char, b: string)
    ensures DropBreaks(a + [c] + b) == if IsBreak(c) then DropBreaks(a + b) else DropBreaks(a) + [c] + DropBreaks(b)
    ensures DropBreaks("") == ""
  {
    BreaksDrop(a + [c], b);
    BreaksDrop(a, [c]);
    BreaksDrop(a, b);
    assert [c][1..] == "";
  }

  /** The encoding of a byte string: its groups of digits denote its groups of bytes, and it is no longer than needed. */
  lemma {:induction false} EncodeMeans(data: Bytes)
    ensures |Encode(data)| == (4 * |data| + 2) / 3 && AllDigits(Encode(data))
    ensures forall g: nat :: GroupOfDigits(Encode(data), g) == GroupOfBytes(data, g)
  {
    var s := Encode(data);
    if |data| >= 3 {
      EncodeMeans(data[3..]);
      EncodeGroups(data);
    } else if |data| > 0 {
      EncodeFew(data);
    }
  }

  lemma EncodeFew(data: Bytes)
    requires 1 <= |data| <= 2
    ensures |Encode(data)| == |data| + 1 && AllDigits(Encode(data))
    ensures forall g: nat :: GroupOfDigits(Encode(data), g) == GroupOfBytes(data, g)
  {
    var s, a, b := Encode(data), data[0], ByteAt(data, 1);
    DigitValue(a / 4);
    DigitValue(a % 4 * 16 + b / 16);
    DigitValue(b % 16 * 4);
    forall g: nat ensures GroupOfDigits(s, g) == GroupOfBytes(data, g) {
      if g > 0 {
        assert GroupOfDigits(s, g) == 0 && GroupOfBytes(data, g) == 0;
      }
    }
  }

  lemma FirstGroup(data: Bytes)
    requires |data| >= 3
    ensures
      var s := Encode(data);
      && |s| >= 4 && s[4..] == Encode(data[3..])
      && Value(s[0]) == Some(data[0] / 4) && Value(s[1]) == Some(data[0] % 4 * 16 + data[1] / 16)
      && Value(s[2]) == Some(data[1] % 16 * 4 + data[2] / 64) && Value(s[3]) == Some(data[2] % 64)
  {
    DigitValue(data[0] / 4);
    DigitValue(data[0] % 4 * 16 + data[1] / 16);
    DigitValue(data[1] % 16 * 4 + data[2] / 64);
    DigitValue(data[2] % 64);
    assert Encode(data)[4..] == Encode(data[3..]);
  }

  lemma OneGroup(a: Byte, b: Byte, c: Byte)
    ensures a / 4 * 0x40000 + (a % 4 * 16 + b / 16) * 0x1000 + (b % 16 * 4 + c / 64) * 0x40 + c % 64 == a * 0x10000 + b * 0x100 + c
  {
  }

  lemma EncodeGroups(data: Bytes)
    requires |data| >= 3
    requires |Encode(data[3..])| == (4 * |data[3..]| + 2) / 3 && AllDigits(Encode(data[3..]))
    requires forall g: nat :: GroupOfDigits(Encode(data[3..]), g) == GroupOfBytes(data[3..], g)
    ensures |Encode(data)| == (4 * |data| + 2) / 3 && AllDigits(Encode(data))
    ensures forall g: nat :: GroupOfDigits(Encode(data), g) == GroupOfBytes(data, g)
  {
    var s := Encode(data);
    FirstGroup(data);
    AllDigitsFour(s);
    forall g: nat ensures GroupOfDigits(s, g) == GroupOfBytes(data, g) {
      if g > 0 {
        LaterBytes(data, g);
        LaterDigits(s, g);
        assert GroupOfDigits(Encode(data[3..]), g - 1) == GroupOfBytes(data[3..], g - 1);
      } else {
        OneGroup(data[0], data[1], data[2]);
      }
    }
  }

  /** Decoding undoes encoding, for every byte string. */
  lemma RoundTrip(data: Bytes)
    ensures Decode(Encode(data)) == Some(data)
  {
    EncodeIsClean(data);
    DigitsRoundTrip(data);
  }
}

module Decimal {
  import opened Prelude

  predicate IsDigit(c: char) {
    '0' <= c <= '9'
  }

  /** `%d` of fmt.Sprintf. */
  function Print(n: nat): (s: string)
    ensures |s| > 0 && forall i | 0 <= i < |s| :: IsDigit(s[i])
    ensures s[0] == '0' ==> n == 0 && s == "0"
  {
    var last := [('0' as int + n % 10) as char];
    if n < 10 then last else Print(n / 10) + last
  }

  function ValueOf(s: string): nat
    requires forall i | 0 <= i < |s| :: IsDigit(s[i])
  {
    if s == "" then 0
    else
      assert IsDigit(s[|s| - 1]);
      ValueOf(s[..|s| - 1]) * 10 + (s[|s| - 1] as int - '0' as int)
  }

  /** How many digits a string starts with. */
  function Digits(s: string): (k: nat)
    ensures k <= |s| && forall i | 0 <= i < k :: IsDigit(s[i])
    ensures k < |s| ==> !IsDigit(s[k])
  {
    if s == "" || !IsDigit(s[0]) then 0 else 1 + Digits(s[1..])
  }

  /** A line break before a number is an error; it is left in place, where no digit is found. */
  function SkipBlanks(s: string): string {
    if s != "" && IsSpace(s[0]) && s[0] != '\n' then SkipBlanks(s[1..]) else s
  }

  /** `%d` of fmt.Sscanf into an unsigned integer below `bound`: blanks, then at least one digit, and no overflow. */
  function Scan(s: string, bound: nat): Option<(nat, string)> {
    var t := SkipBlanks(s);
    var k := Digits(t);
    if k == 0 || ValueOf(t[..k]) >= bound then None else Some((ValueOf(t[..k]), t[k..]))
  }

  lemma {:induction false} ValueOfPrint(n: nat)
    ensures ValueOf(Print(n)) == n
  {
    var s := Print(n);
    if n >= 10 {
      ValueOfPrint(n / 10);
      assert s[..|s| - 1] == Print(n / 10);
    } else {
      assert s[..|s| - 1] == "";
    }
  }

  lemma {:induction false} DigitsOf(d: string, rest: string)
    requires (forall i | 0 <= i < |d| :: IsDigit(d[i])) && (rest == "" || !IsDigit(rest[0]))
    ensures Digits(d + rest) == |d|
  {
    if d == "" {
      assert d + rest == rest;
    } else {
      DigitsOf(d[1..], rest);
      assert (d + rest)[1..] == d[1..] + rest;
    }
  }

  predicate AllBlank(s: string) {
    forall i | 0 <= i < |s| :: IsSpace(s[i]) && s[i] != '\n'
  }

  predicate AllDigits(s: string) {
    forall i | 0 <= i < |s| :: IsDigit(s[i])
  }

  lemma {:induction false} SkipsBlanks(blanks: string, rest: string)
    requires AllBlank(blanks) && (rest == "" || !IsSpace(rest[0]) || rest[0] == '\n')
    ensures SkipBlanks(blanks + rest) == rest
  {
    if blanks == "" {
      assert blanks + rest == rest;
    } else {
      SkipsBlanks(blanks[1..], rest);
      assert (blanks + rest)[1..] == blanks[1..] + rest;
    }
  }

  /**
    What scanning does with any input: after blanks it takes all the digits there are, and refuses if there are none or
    their value is out of range.
   */
  lemma ScanMeans(blanks: string, digits: string, rest: string, bound: nat)
    requires AllBlank(blanks) && AllDigits(digits) && (rest == "" || !IsDigit(rest[0]))
    requires digits == "" ==> rest == "" || !IsSpace(rest[0]) || rest[0] == '\n'
    ensures Scan(blanks + digits + rest, bound) ==
            if digits == "" || ValueOf(digits) >= bound then None else Some((ValueOf(digits), rest))
  {
    var t := digits + rest;
    assert blanks + digits + rest == blanks + t;
    SkipsBlanks(blanks, t);
    DigitsOf(digits, rest);
    assert t[..|digits|] == digits && t[|digits|..] == rest;
  }

  lemma {:induction false} BlanksOf(s: string) returns (blanks: string)
    ensures AllBlank(blanks) && s == blanks + SkipBlanks(s)
  {
    blanks := "";
    if s != "" && IsSpace(s[0]) && s[0] != '\n' {
      var more := BlanksOf(s[1..]);
      blanks := [s[0]] + more;
    }
  }

  /** Whatever is accepted has that form. */
  lemma ScanTakes(s: string, bound: nat) returns (blanks: string, digits: string)
    requires Scan(s, bound).Some?
    ensures AllBlank(blanks) && AllDigits(digits) && digits != "" && ValueOf(digits) < bound
    ensures Scan(s, bound).value.0 == ValueOf(digits) && s == blanks + digits + Scan(s, bound).value.1
    ensures var rest := Scan(s, bound).value.1; rest == "" || !IsDigit(rest[0])
  {
    blanks := BlanksOf(s);
    var t := SkipBlanks(s);
    digits := t[..Digits(t)];
    assert t == digits + t[Digits(t)..];
  }

  /** Scanning a printed number gives it back and leaves what follows, unless that starts with a digit. */
  lemma ScanPrint(n: nat, rest: string, bound: nat)
    requires rest == "" || !IsDigit(rest[0])
    ensures Scan(Print(n) + rest, bound) == if n < bound then Some((n, rest)) else None
  {
    var s := Print(n) + rest;
    assert SkipBlanks(s) == s by { assert IsDigit(s[0]); }
    DigitsOf(Print(n), rest);
    assert s[..|Print(n)|] == Print(n) && s[|Print(n)|..] == rest;
    ValueOfPrint(n);
  }
}

module Password {
  import opened Prelude
  import Base64
  import Decimal

  const U32 := 0x1_0000_0000
  const U8 := 0x100

  /** Argon2id (RFC 9106): password, salt, iterations, memory, parallelism and key length to a digest. */
  type Kdf = (Bytes, Bytes, nat, nat, nat, nat) -> Bytes

  /** Assumption: the digest has the length asked for. */
  ghost predicate HonoursLength(kdf: Kdf) {
    forall pw: Bytes, salt: Bytes, t: nat, m: nat, p: nat, k: nat :: |kdf(pw, salt, t, m, p, k)| == k
  }

  datatype Encoded = Encoded(memory: nat, iterations: nat, parallelism: nat, salt: Bytes, digest: Bytes)

  function PrintParams(memory: nat, iterations: nat, parallelism: nat): string {
    "m=" + (Decimal.Print(memory) + (",t=" + (Decimal.Print(iterations) + (",p=" + Decimal.Print(parallelism)))))
  }

  function Print(e: Encoded): string {
    "" + "$" + ("argon2id" + "$" + ("v=19" + "$" +
      (PrintParams(e.memory, e.iterations, e.parallelism) + "$" + (Base64.Encode(e.salt) + "$" + Base64.Encode(e.digest)))))
  }

  /** `strings.Split(s, "$")`. */
  function Split(s: string): (parts: seq<string>)
    ensures |parts| > 0
  {
    if s == "" then [""]
    else
      var rest := Split(s[1..]);
      if s[0] == '$' then [""] + rest else [[s[0]] + rest[0]] + rest[1..]
  }

  function Expect(s: string, literal: string): Option<string> {
    if |literal| <= |s| && s[..|literal|] == literal then Some(s[|literal|..]) else None
  }

  /** `Sscanf(s, "m=%d,t=%d,p=%d", ...)`; what follows the last number is ignored. */
  function ParseParams(s: string): Option<(nat, nat, nat)> {
    var s1 := Expect(s, "m=");
    if s1.None? then None else
    var m := Decimal.Scan(s1.value, U32);
    if m.None? then None else
    var s2 := Expect(m.value.1, ",t=");
    if s2.None? then None else
    var t := Decimal.Scan(s2.value, U32);
    if t.None? then None else
    var s3 := Expect(t.value.1, ",p=");
    if s3.None? then None else
    var p := Decimal.Scan(s3.value, U8);
    if p.None? then None else Some((m.value.0, t.value.0, p.value.0))
  }

  /** The parse inside `Verify`: six parts, of which the first three are not looked at. */
  function Parse(s: string): Option<Encoded> {
    var parts := Split(s);
    if |parts| != 6 then None
    else
      var params, salt, digest := ParseParams(parts[3]), Base64.Decode(parts[4]), Base64.Decode(parts[5]);
      if params.None? || salt.None? || digest.None? then None
      else Some(Encoded(params.value.0, params.value.1, params.value.2, salt.value, digest.value))
  }

  /** `Hash`, given the random salt. */
  function Hash(kdf: Kdf, password: Bytes, salt: Bytes): string {
    Print(Encoded(19 * 1024, 2, 1, salt, kdf(password, salt, 2, 19 * 1024, 1, 32)))
  }

  datatype Verdict = Checked(ok: bool) | Malformed | Panics

  /** `Verify`. Argon2id does not exist for zero iterations or zero lanes; the key derivation panics. */
  function Verify(kdf: Kdf, password: Bytes, encoded: string): Verdict {
    var e := Parse(encoded);
    if e.None? then Malformed
    else
      var v := e.value;
      if v.iterations == 0 || v.parallelism == 0 then Panics
      else Checked(kdf(password, v.salt, v.iterations, v.memory, v.parallelism, |v.digest| % U32) == v.digest)
  }

  lemma {:induction false} SplitAtSeparator(a: string, b: string)
    requires '$' !in a
    ensures Split(a + "$" + b) == [a] + Split(b)
  {
    var s := a + "$" + b;
    if a == "" {
      assert s[1..] == b;
    } else {
      SplitAtSeparator(a[1..], b);
      assert s[1..] == a[1..] + "$" + b;
      assert [a[0]] + a[1..] == a;
      assert ([a[1..]] + Split(b))[1..] == Split(b);
    }
  }

  lemma {:induction false} SplitWithoutSeparator(a: string)
    requires '$' !in a
    ensures Split(a) == [a]
  {
    if a != "" {
      SplitWithoutSeparator(a[1..]);
      assert [a[0]] + a[1..] == a;
    }
  }

  lemma ExpectLiteral(literal: string, rest: string)
    ensures Expect(literal + rest, literal) == Some(rest)
  {
    var s := literal + rest;
    assert s[..|literal|] == literal && s[|literal|..] == rest;
  }

  /** The parameter block parses back to the numbers printed, exactly if all are in range. */
  lemma ParamsRoundTrip(m: nat, t: nat, p: nat)
    ensures ParseParams(PrintParams(m, t, p)) ==
            if m < 0x1_0000_0000 && t < 0x1_0000_0000 && p < 0x100 then Some((m, t, p)) else None
  {
    var s3 := Decimal.Print(p);
    var r2 := ",p=" + s3;
    var s2 := Decimal.Print(t) + r2;
    var r1 := ",t=" + s2;
    var s1 := Decimal.Print(m) + r1;
    ExpectLiteral("m=", s1);
    Decimal.ScanPrint(m, r1, U32);
    ExpectLiteral(",t=", s2);
    Decimal.ScanPrint(t, r2, U32);
    ExpectLiteral(",p=", s3);
    Decimal.ScanPrint(p, "", U8);
    assert s3 + "" == s3;
  }

  lemma ParamsAreClean(m: nat, t: nat, p: nat)
    ensures '$' !in PrintParams(m, t, p)
  {
    var a, b, c := Decimal.Print(m), Decimal.Print(t), Decimal.Print(p);
    assert forall x, y: string :: '$' !in x && '$' !in y ==> '$' !in x + y;
    assert '$' !in a && '$' !in b && '$' !in c;
  }

  lemma PrintSplits(e: Encoded)
    ensures Split(Print(e)) ==
      ["", "argon2id", "v=19", PrintParams(e.memory, e.iterations, e.parallelism), Base64.Encode(e.salt), Base64.Encode(e.digest)]
  {
    var params, salt, digest := PrintParams(e.memory, e.iterations, e.parallelism), Base64.Encode(e.salt), Base64.Encode(e.digest);
    Base64.EncodeIsClean(e.salt);
    Base64.EncodeIsClean(e.digest);
    ParamsAreClean(e.memory, e.iterations, e.parallelism);
    SplitWithoutSeparator(digest);
    var r5 := salt + "$" + digest;
    SplitAtSeparator(salt, digest);
    var r4 := params + "$" + r5;
    SplitAtSeparator(params, r5);
    var r3 := "v=19" + "$" + r4;
    SplitAtSeparator("v=19", r4);
    var r2 := "argon2id" + "$" + r3;
    SplitAtSeparator("argon2id", r3);
    SplitAtSeparator("", r2);
  }

  /** Parsing undoes printing for every salt and digest and every in-range parameter. */
  lemma PrintParseRoundTrip(e: Encoded)
    requires e.memory < U32 && e.iterations < U32 && e.parallelism < U8
    ensures Parse(Print(e)) == Some(e)
  {
    PrintSplits(e);
    ParamsRoundTrip(e.memory, e.iterations, e.parallelism);
    Base64.RoundTrip(e.salt);
    Base64.RoundTrip(e.digest);
  }

  /** One number of the block: a prefix, then blanks and digits below a bound. */
  predicate IsField(f: string, prefix: string, n: nat, bound: nat) {
    exists i | |prefix| <= i < |f| ::
      && f[..|prefix|] == prefix && Decimal.AllBlank(f[|prefix|..i]) && Decimal.AllDigits(f[i..])
      && Decimal.ValueOf(f[i..]) == n < bound
  }

  predicate NoDigitFirst(s: string) {
    s == "" || !Decimal.IsDigit(s[0])
  }

  lemma FieldScans(f: string, prefix: string, n: nat, bound: nat, rest: string)
    requires IsField(f, prefix, n, bound) && NoDigitFirst(rest)
    ensures Expect(f + rest, prefix).Some?
    ensures Decimal.Scan(Expect(f + rest, prefix).value, bound) == Some((n, rest))
  {
    var i :| |prefix| <= i < |f| && f[..|prefix|] == prefix && Decimal.AllBlank(f[|prefix|..i]) && Decimal.AllDigits(f[i..])
             && Decimal.ValueOf(f[i..]) == n < bound;
    var blanks, digits := f[|prefix|..i], f[i..];
    assert (f + rest)[..|prefix|] == prefix;
    assert (f + rest)[|prefix|..] == blanks + digits + rest;
    Decimal.ScanMeans(blanks, digits, rest, bound);
  }

  lemma ScansField(s: string, prefix: string, bound: nat) returns (f: string)
    requires Expect(s, prefix).Some? && Decimal.Scan(Expect(s, prefix).value, bound).Some?
    ensures
      var (n, rest) := Decimal.Scan(Expect(s, prefix).value, bound).value;
      s == f + rest && IsField(f, prefix, n, bound) && NoDigitFirst(rest)
  {
    var t := Expect(s, prefix).value;
    var blanks, digits := Decimal.ScanTakes(t, bound);
    f := prefix + blanks + digits;
    var i := |prefix| + |blanks|;
    assert f[..|prefix|] == prefix && f[|prefix|..i] == blanks && f[i..] == digits;
    assert s == prefix + t;
  }

  /** A block parses exactly if it starts with three labelled numbers in range; anything but a digit may follow. */
  lemma BlockParses(f: string, g: string, h: string, m: nat, t: nat, p: nat, rest: string)
    requires IsField(f, "m=", m, 0x1_0000_0000) && IsField(g, ",t=", t, 0x1_0000_0000) && IsField(h, ",p=", p, 0x100)
    requires NoDigitFirst(rest)
    ensures ParseParams(f + (g + (h + rest))) == Some((m, t, p))
  {
    assert g[0] == ',' && h[0] == ',';
    FieldScans(f, "m=", m, U32, g + (h + rest));
    FieldScans(g, ",t=", t, U32, h + rest);
    FieldScans(h, ",p=", p, U8, rest);
  }

  lemma ParsedIsBlock(s: string) returns (f: string, g: string, h: string, rest: string)
    requires ParseParams(s).Some?
    ensures s == f + (g + (h + rest)) && NoDigitFirst(rest)
    ensures
      var (m, t, p) := ParseParams(s).value;
      && IsField(f, "m=", m, 0x1_0000_0000) && IsField(g, ",t=", t, 0x1_0000_0000) && IsField(h, ",p=", p, 0x100)
  {
    f := ScansField(s, "m=", U32);
    var s2 := Decimal.Scan(Expect(s, "m=").value, U32).value.1;
    g := ScansField(s2, ",t=", U32);
    var s3 := Decimal.Scan(Expect(s2, ",t=").value, U32).value.1;
    h := ScansField(s3, ",p=", U8);
    rest := Decimal.Scan(Expect(s3, ",p=").value, U8).value.1;
  }

  function Separators(s: string): nat {
    if s == "" then 0 else Separators(s[1..]) + if s[0] == '$' then 1 else 0
  }

  lemma {:induction false} SplitCounts(s: string)
    ensures |Split(s)| == Separators(s) + 1
  {
    if s != "" {
      SplitCounts(s[1..]);
    }
  }

  /** Only strings with five separators are ever parsed. */
  lemma WrongPartsAreMalformed(kdf: Kdf, password: Bytes, s: string)
    ensures Separators(s) != 5 ==> Verify(kdf, password, s) == Malformed
  {
    SplitCounts(s);
  }

  /**
    A string of six parts is checked by its last three: it is malformed exactly if one of them is, and otherwise the
    attempt is derived with the salt and the parameters it names and compared with the digest it holds.
   */
  lemma VerifyChecksTheParts(kdf: Kdf, attempt: Bytes, a: string, b: string, c: string, params: string, salt: string, digest: string)
    requires '$' !in a && '$' !in b && '$' !in c && '$' !in params && '$' !in salt && '$' !in digest
    ensures
      var s := a + "$" + (b + "$" + (c + "$" + (params + "$" + (salt + "$" + digest))));
      var p, x, d := ParseParams(params), Base64.Decode(salt), Base64.Decode(digest);
      Verify(kdf, attempt, s) ==
      if p.None? || x.None? || d.None? then Malformed
      else if p.value.1 == 0 || p.value.2 == 0 then Panics
      else Checked(kdf(attempt, x.value, p.value.1, p.value.0, p.value.2, |d.value| % 0x1_0000_0000) == d.value)
  {
    PrefixSplits(a, b, c, params + "$" + (salt + "$" + digest));
    SplitAtSeparator(params, salt + "$" + digest);
    SplitAtSeparator(salt, digest);
    SplitWithoutSeparator(digest);
  }

  /** A printed hash is checked with its own salt and parameters, whatever they are. */
  lemma VerifyUsesStoredParameters(kdf: Kdf, attempt: Bytes, e: Encoded)
    requires e.memory < U32 && e.iterations < U32 && e.parallelism < U8
    ensures Verify(kdf, attempt, Print(e)) ==
            if e.iterations == 0 || e.parallelism == 0 then Panics
            else Checked(kdf(attempt, e.salt, e.iterations, e.memory, e.parallelism, |e.digest| % 0x1_0000_0000) == e.digest)
  {
    PrintParseRoundTrip(e);
  }

  /** `Verify` does not look at the first three parts, so any algorithm and version may be named there. */
  lemma VerifyIgnoresAlgorithmAndVersion(kdf: Kdf, password: Bytes, a: string, b: string, c: string, rest: string)
    requires '$' !in a && '$' !in b && '$' !in c
    ensures Verify(kdf, password, a + "$" + (b + "$" + (c + "$" + rest))) ==
            Verify(kdf, password, "" + "$" + ("" + "$" + ("" + "$" + rest)))
  {
    PrefixSplits(a, b, c, rest);
    PrefixSplits("", "", "", rest);
  }

  lemma PrefixSplits(a: string, b: string, c: string, rest: string)
    requires '$' !in a && '$' !in b && '$' !in c
    ensures Split(a + "$" + (b + "$" + (c + "$" + rest))) == [a, b, c] + Split(rest)
  {
    SplitAtSeparator(c, rest);
    SplitAtSeparator(b, c + "$" + rest);
    SplitAtSeparator(a, b + "$" + (c + "$" + rest));
  }

  /** A stored password verifies, and another password does exactly if it has the same digest under the stored salt. */
  lemma VerifyDecidesTheDigest(kdf: Kdf, password: Bytes, salt: Bytes, attempt: Bytes)
    requires HonoursLength(kdf)
    ensures Verify(kdf, password, Hash(kdf, password, salt)) == Checked(true)
    ensures Verify(kdf, attempt, Hash(kdf, password, salt)) ==
            Checked(kdf(attempt, salt, 2, 19 * 1024, 1, 32) == kdf(password, salt, 2, 19 * 1024, 1, 32))
  {
    PrintParseRoundTrip(Encoded(19 * 1024, 2, 1, salt, kdf(password, salt, 2, 19 * 1024, 1, 32)));
  }
}
