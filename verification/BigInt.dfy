/** `bigint`: unsigned integers of a fixed number of bytes, stored big-endian, with
    their hexadecimal form. */
module BigInts {

  type byte = x: int | 0 <= x < 256

  function Pow(b: nat, n: nat): nat {
    if n == 0 then 1 else b * Pow(b, n - 1)
  }

  // ---------------------------------------------------------------------- bytes

  /** The number a byte string stands for, most significant byte first. */
  function Value(bytes: seq<byte>): nat {
    if bytes == [] then 0 else 256 * Value(bytes[..|bytes| - 1]) + bytes[|bytes| - 1]
  }

  /** The `size` low-order bytes of a number. */
  function ToBytes(n: nat, size: nat): seq<byte> {
    if size == 0 then [] else ToBytes(n / 256, size - 1) + [n % 256]
  }

  /** The bytes up to the first significant one; one zero byte for zero. */
  function Significant(n: nat): seq<byte> {
    if n < 256 then [n] else Significant(n / 256) + [n % 256]
  }

  function Zeros(n: nat): (z: seq<byte>)
    ensures |z| == n && forall i :: 0 <= i < n ==> z[i] == 0
  {
    if n == 0 then [] else Zeros(n - 1) + [0]
  }

  lemma {:induction false} ToBytesSize(n: nat, size: nat)
    ensures |ToBytes(n, size)| == size
  {
    if size > 0 {
      ToBytesSize(n / 256, size - 1);
    }
  }

  lemma {:induction false} ValueOfToBytes(n: nat, size: nat)
    requires n < Pow(256, size)
    ensures Value(ToBytes(n, size)) == n
  {
    if size > 0 {
      ValueOfToBytes(n / 256, size - 1);
      var b := ToBytes(n, size);
      assert b[..|b| - 1] == ToBytes(n / 256, size - 1);
    }
  }

  lemma {:induction false} ValueBound(bytes: seq<byte>)
    ensures Value(bytes) < Pow(256, |bytes|)
  {
    if bytes != [] {
      ValueBound(bytes[..|bytes| - 1]);
    }
  }

  lemma {:induction false} ToBytesOfValue(bytes: seq<byte>)
    ensures ToBytes(Value(bytes), |bytes|) == bytes
  {
    if bytes != [] {
      ToBytesOfValue(bytes[..|bytes| - 1]);
      assert bytes == bytes[..|bytes| - 1] + [bytes[|bytes| - 1]];
    }
  }

  lemma {:induction false} SignificantFits(n: nat, size: nat)
    requires n < Pow(256, size) && size > 0
    ensures |Significant(n)| <= size
    ensures ToBytes(n, size) == Zeros(size - |Significant(n)|) + Significant(n)
  {
    if n >= 256 {
      SignificantFits(n / 256, size - 1);
      var z := Zeros(size - |Significant(n)|);
      assert z + Significant(n / 256) + [n % 256] == z + (Significant(n / 256) + [n % 256]);
    } else {
      ToBytesOfZero(size - 1);
    }
  }

  lemma SignificantStep(n: nat, done: seq<byte>)
    ensures
      Significant(n) + done ==
      if n / 256 == 0 then [n % 256] + done else Significant(n / 256) + ([n % 256] + done)
  {
    if n >= 256 {
      var rest := Significant(n / 256);
      assert rest + [n % 256] + done == rest + ([n % 256] + done);
    }
  }

  lemma {:induction false} ToBytesOfZero(size: nat)
    ensures ToBytes(0, size) == Zeros(size)
  {
    if size > 0 {
      ToBytesOfZero(size - 1);
    }
  }

  lemma {:induction false} ValueConcat(a: seq<byte>, b: seq<byte>)
    ensures Value(a + b) == Value(a) * Pow(256, |b|) + Value(b)
  {
    if b == [] {
      assert a + b == a;
    } else {
      var front := b[..|b| - 1];
      assert (a + b)[..|a + b| - 1] == a + front;
      ValueConcat(a, front);
      AppendDigit(Value(a), Pow(256, |front|), Value(front));
    }
  }

  lemma AppendDigit(a: nat, p: nat, f: nat)
    ensures 256 * (a * p + f) == a * (256 * p) + 256 * f
  {
  }

  /** The bytes are big-endian. */
  lemma ValueOfTwo(high: byte, low: byte)
    ensures Value([low]) == low && Value([high, low]) == 256 * high + low
  {
    assert [high, low][..1] == [high];
  }

  lemma {:induction false} ValueZeroIff(bytes: seq<byte>)
    ensures Value(bytes) == 0 <==> forall i :: 0 <= i < |bytes| ==> bytes[i] == 0
  {
    if bytes != [] {
      var front := bytes[..|bytes| - 1];
      ValueZeroIff(front);
      assert forall i :: 0 <= i < |front| ==> front[i] == bytes[i];
    }
  }

  lemma {:induction false} PowPositive(b: nat, n: nat)
    requires b > 0
    ensures Pow(b, n) > 0
  {
    if n > 0 {
      PowPositive(b, n - 1);
    }
  }

  /** Exporting writes the significant bytes only, over whatever is there: without
      the zero-fill the number reads back exactly when the bytes in front happen to
      be zero. */
  lemma StaleBytesIff(stale: seq<byte>, n: nat)
    ensures Value(stale + Significant(n)) == n <==> forall i :: 0 <= i < |stale| ==> stale[i] == 0
  {
    ValueConcat(stale, Significant(n));
    ValueOfSignificant(n);
    ValueZeroIff(stale);
    PowPositive(256, |Significant(n)|);
    ProductZeroIff(Value(stale), Pow(256, |Significant(n)|));
  }

  lemma ProductZeroIff(a: nat, b: nat)
    requires b > 0
    ensures a * b == 0 <==> a == 0
  {
  }

  lemma {:induction false} ValueOfSignificant(n: nat)
    ensures Value(Significant(n)) == n
  {
    var b := Significant(n);
    if n >= 256 {
      ValueOfSignificant(n / 256);
      assert b[..|b| - 1] == Significant(n / 256);
    } else {
      assert b[..|b| - 1] == [];
    }
  }

  // ----------------------------------------------------------------------- hex

  const DIGITS: string := "0123456789ABCDEF"

  predicate IsHex(c: char) {
    '0' <= c <= '9' || 'a' <= c <= 'f' || 'A' <= c <= 'F'
  }

  function Digit(c: char): (d: nat)
    requires IsHex(c)
    ensures d < 16
  {
    if '0' <= c <= '9' then (c - '0') as int
    else if 'a' <= c <= 'f' then (c - 'a') as int + 10
    else (c - 'A') as int + 10
  }

  /** The sixteen digits, in either case. */
  lemma DigitValues()
    ensures Digit('0') == 0 && Digit('1') == 1 && Digit('2') == 2 && Digit('3') == 3 && Digit('4') == 4
    ensures Digit('5') == 5 && Digit('6') == 6 && Digit('7') == 7 && Digit('8') == 8 && Digit('9') == 9
    ensures Digit('A') == 10 && Digit('B') == 11 && Digit('C') == 12
    ensures Digit('D') == 13 && Digit('E') == 14 && Digit('F') == 15
    ensures Digit('a') == 10 && Digit('b') == 11 && Digit('c') == 12
    ensures Digit('d') == 13 && Digit('e') == 14 && Digit('f') == 15
    ensures forall c :: IsHex(c) <==> c in "0123456789abcdefABCDEF"
    ensures HexDigits(0) == "0" && HexDigits(7) == "7" && HexDigits(9) == "9"
    ensures HexDigits(10) == "A" && HexDigits(11) == "B" && HexDigits(12) == "C"
    ensures HexDigits(13) == "D" && HexDigits(14) == "E" && HexDigits(15) == "F"
  {
  }

  function UpperChar(c: char): char {
    if 'a' <= c <= 'z' then c - 'a' + 'A' else c
  }

  function Upper(s: string): string {
    if s == [] then [] else Upper(s[..|s| - 1]) + [UpperChar(s[|s| - 1])]
  }

  /** Upper case keeps every digit's value and is written in the upper-case digits. */
  lemma {:induction false} UpperKeepsDigits(s: string)
    requires AllHex(s)
    ensures |Upper(s)| == |s| && UpperHex(Upper(s)) && AllHex(Upper(s))
    ensures forall i :: 0 <= i < |s| ==> Digit(Upper(s)[i]) == Digit(s[i])
  {
    if s != [] {
      UpperKeepsDigits(s[..|s| - 1]);
    }
  }

  predicate AllHex(s: string) {
    forall i :: 0 <= i < |s| ==> IsHex(s[i])
  }

  function HexValue(s: string): nat
    requires AllHex(s)
  {
    if s == [] then 0 else 16 * HexValue(s[..|s| - 1]) + Digit(s[|s| - 1])
  }

  /** The digits a hexadecimal stream prints. */
  function HexDigits(n: nat): (s: string)
    ensures s != []
  {
    if n < 16 then [DIGITS[n]] else HexDigits(n / 16) + [DIGITS[n % 16]]
  }

  function ZeroDigits(n: nat): (s: string)
    ensures |s| == n && forall i :: 0 <= i < n ==> s[i] == '0'
  {
    if n == 0 then [] else ZeroDigits(n - 1) + ['0']
  }

  /** Zero-filled to the width of the stream. */
  function Pad(s: string, width: nat): string {
    if |s| < width then ZeroDigits(width - |s|) + s else s
  }

  lemma DigitPrintsUpper(c: char)
    requires IsHex(c)
    ensures DIGITS[Digit(c)] == UpperChar(c)
  {
  }

  lemma DigitOfPrinted(d: nat)
    requires d < 16
    ensures IsHex(DIGITS[d]) && Digit(DIGITS[d]) == d
  {
  }

  lemma HexValueAppend(s: string, d: nat)
    requires AllHex(s) && d < 16
    ensures AllHex(s + [DIGITS[d]]) && HexValue(s + [DIGITS[d]]) == 16 * HexValue(s) + d
  {
    DigitOfPrinted(d);
    assert (s + [DIGITS[d]])[..|s|] == s;
  }

  lemma {:induction false} HexDigitsValue(n: nat)
    ensures AllHex(HexDigits(n)) && HexValue(HexDigits(n)) == n
  {
    if n >= 16 {
      var q, d := n / 16, n % 16;
      HexDigitsValue(q);
      HexValueAppend(HexDigits(q), d);
      assert n == 16 * q + d;
    } else {
      HexValueAppend([], n);
      assert [] + [DIGITS[n]] == HexDigits(n);
    }
  }

  predicate UpperHex(s: string) {
    forall i :: 0 <= i < |s| ==> '0' <= s[i] <= '9' || 'A' <= s[i] <= 'F'
  }

  lemma {:induction false} HexDigitsUpper(n: nat)
    ensures UpperHex(HexDigits(n))
  {
    if n >= 16 {
      HexDigitsUpper(n / 16);
    }
  }

  lemma {:induction false} HexDigitsFit(n: nat, size: nat)
    requires n < Pow(16, size) && size > 0
    ensures |HexDigits(n)| <= size
  {
    if n >= 16 {
      HexDigitsFit(n / 16, size - 1);
    }
  }

  lemma {:induction false} HexValueBound(s: string)
    requires AllHex(s)
    ensures HexValue(s) < Pow(16, |s|)
  {
    if s != [] {
      HexValueBound(s[..|s| - 1]);
    }
  }

  lemma {:induction false} PowGrows(b: nat, m: nat, n: nat)
    requires b > 0 && m <= n
    ensures Pow(b, m) <= Pow(b, n)
  {
    if m < n {
      PowGrows(b, m, n - 1);
      PowPositive(b, n - 1);
    }
  }

  lemma {:induction false} PowNibbles(n: nat)
    ensures Pow(16, 2 * n) == Pow(256, n)
  {
    if n > 0 {
      PowNibbles(n - 1);
      assert Pow(16, 2 * n) == 16 * Pow(16, 2 * n - 1) == 16 * (16 * Pow(16, 2 * n - 2));
    }
  }

  lemma {:induction false} LeadingZeros(n: nat, s: string)
    requires AllHex(s)
    ensures AllHex(ZeroDigits(n) + s) && HexValue(ZeroDigits(n) + s) == HexValue(s)
  {
    var z := ZeroDigits(n);
    if s != [] {
      LeadingZeros(n, s[..|s| - 1]);
      assert (z + s)[..|z + s| - 1] == z + s[..|s| - 1];
    } else if n > 0 {
      LeadingZeros(n - 1, s);
      assert (z + s)[..n - 1] == ZeroDigits(n - 1) + s;
    }
  }

  lemma PrintParsedDigit(c: char, width: nat)
    requires IsHex(c) && width > 0
    ensures Pad(HexDigits(HexValue([c])), width) == ZeroDigits(width - 1) + Upper([c])
  {
    DigitPrintsUpper(c);
    assert HexValue([c]) == Digit(c);
    assert HexDigits(Digit(c)) == [DIGITS[Digit(c)]] == Upper([c]);
  }

  lemma PrintParsedStep(v: nat, d: nat, n: nat, zeros: string, digits: string, width: nat)
    requires d < 16 && n == 16 * v + d && width > 1 && v < Pow(16, width - 1)
    requires Pad(HexDigits(v), width - 1) == zeros + digits
    ensures Pad(HexDigits(n), width) == zeros + (digits + [DIGITS[d]])
  {
    PrintAppend(v, d, n, width);
    assert zeros + digits + [DIGITS[d]] == zeros + (digits + [DIGITS[d]]);
  }

  /** Printing a parsed string, zero-filled, gives it back in upper case. */
  lemma {:induction false} PrintParsed(s: string, width: nat)
    requires AllHex(s) && 0 < |s| <= width
    ensures Pad(HexDigits(HexValue(s)), width) == ZeroDigits(width - |s|) + Upper(s)
    decreases |s|
  {
    var t, c := s[..|s| - 1], s[|s| - 1];
    if t == [] {
      assert s == [c];
      PrintParsedDigit(c, width);
    } else {
      PrintParsed(t, width - 1);
      HexValueBound(t);
      PowGrows(16, |t|, width - 1);
      DigitPrintsUpper(c);
      PrintParsedStep(HexValue(t), Digit(c), HexValue(s), ZeroDigits(width - |s|), Upper(t), width);
    }
  }

  /** One more digit is printed one place further to the right. */
  lemma PrintAppend(v: nat, d: nat, n: nat, width: nat)
    requires d < 16 && n == 16 * v + d && width > 1 && v < Pow(16, width - 1)
    ensures Pad(HexDigits(n), width) == Pad(HexDigits(v), width - 1) + [DIGITS[d]]
  {
    assert n / 16 == v && n % 16 == d;
    if v == 0 {
      assert HexDigits(n) == [DIGITS[d]];
      PrintZero(width - 1);
    } else {
      assert HexDigits(n) == HexDigits(v) + [DIGITS[d]];
      HexDigitsFit(v, width - 1);
      PadAppend(HexDigits(v), DIGITS[d], width);
    }
  }

  lemma PrintZero(width: nat)
    requires width > 0
    ensures Pad(HexDigits(0), width) == ZeroDigits(width)
  {
    assert HexDigits(0) == ['0'];
  }

  lemma PadAppend(s: string, c: char, width: nat)
    requires |s| <= width - 1
    ensures Pad(s + [c], width) == Pad(s, width - 1) + [c]
  {
    if |s| < width - 1 {
      assert ZeroDigits(width - 1 - |s|) + s + [c] == ZeroDigits(width - 1 - |s|) + (s + [c]);
    }
  }

  lemma PaddedDigits(s: string, width: nat)
    requires AllHex(s) && UpperHex(s) && |s| <= width
    ensures
      var text := Pad(s, width);
      |text| == width && AllHex(text) && HexValue(text) == HexValue(s) && UpperHex(text)
  {
    LeadingZeros(width - |s|, s);
  }

  lemma PrintedNumber(n: nat, size: nat)
    requires n < Pow(256, size) && size > 0
    ensures
      var text := Pad(HexDigits(n), 2 * size);
      |text| == 2 * size && AllHex(text) && HexValue(text) == n && UpperHex(text)
  {
    PowNibbles(size);
    HexDigitsFit(n, 2 * size);
    HexDigitsValue(n);
    HexDigitsUpper(n);
    PaddedDigits(HexDigits(n), 2 * size);
  }

  datatype Parsed = Accepted | InvalidSize | InvalidFormat

  /** The digits in front of the first character that is not one. */
  function HexPrefix(s: string): (p: string)
    ensures p <= s && AllHex(p)
    ensures |p| < |s| ==> !IsHex(s[|p|])
  {
    if s == [] || !IsHex(s[0]) then [] else [s[0]] + HexPrefix(s[1..])
  }

  /** No sign, no base prefix, no blanks: characters the input stream would take in. */
  predicate Plain(s: string) {
    forall i :: 0 <= i < |s| ==> s[i] !in "+-xX \t\n\r"
  }

  lemma HexIsPlain(s: string)
    requires AllHex(s)
    ensures Plain(s)
  {
  }

  class BigInt {
    const bytes: array<byte>

    constructor (size: nat)
      requires size > 0
      ensures bytes.Length == size && fresh(bytes)
    {
      bytes := new byte[size];
    }

    function Contents(): nat
      reads bytes
    {
      Value(bytes[..])
    }

    /** `export_bits`: writes from the last byte backwards while anything is left. */
    method ExportBits(number: nat)
      requires number < Pow(256, bytes.Length) && bytes.Length > 0
      modifies bytes
      ensures |Significant(number)| <= bytes.Length
      ensures bytes[..] == old(bytes[..bytes.Length - |Significant(number)|]) + Significant(number)
    {
      SignificantFits(number, bytes.Length);
      var rest, i := number / 256, bytes.Length - 1;
      bytes[i] := number % 256;
      ghost var done := [number % 256];
      assert number < 256 ==> Significant(number) == done;
      while rest > 0
        invariant 0 <= i < bytes.Length && rest >= 0
        invariant bytes[i..] == done && bytes[..i] == old(bytes[..i])
        invariant rest == 0 ==> Significant(number) == done
        invariant rest > 0 ==> Significant(number) == Significant(rest) + done
        decreases rest
      {
        i := i - 1;
        bytes[i] := rest % 256;
        SignificantStep(rest, done);
        done := [rest % 256] + done;
        rest := rest / 256;
        assert bytes[i..] == done;
      }
      assert |bytes[i..]| == |Significant(number)|;
      assert bytes[..] == bytes[..i] + bytes[i..];
    }

    method Set(number: nat)
      requires number < Pow(256, bytes.Length) && bytes.Length > 0
      modifies bytes
      ensures bytes[..] == ToBytes(number, bytes.Length) && Contents() == number
    {
      for i := 0 to bytes.Length
        invariant forall j :: 0 <= j < i ==> bytes[j] == 0
      {
        bytes[i] := 0;
      }
      SignificantFits(number, bytes.Length);
      ExportBits(number);
      assert bytes[..bytes.Length - |Significant(number)|] == Zeros(bytes.Length - |Significant(number)|);
      ValueOfToBytes(number, bytes.Length);
    }

    method Number() returns (number: nat)
      ensures number == Value(bytes[..])
      ensures number < Pow(256, bytes.Length) && ToBytes(number, bytes.Length) == bytes[..]
    {
      number := 0;
      for i := 0 to bytes.Length
        invariant number == Value(bytes[..i])
      {
        number := 256 * number + bytes[i];
        assert bytes[..i + 1][..i] == bytes[..i];
      }
      assert bytes[..bytes.Length] == bytes[..];
      ValueBound(bytes[..]);
      ToBytesOfValue(bytes[..]);
    }

    method ToHex() returns (text: string)
      requires bytes.Length > 0
      ensures text == Pad(HexDigits(Value(bytes[..])), 2 * bytes.Length)
      ensures |text| == 2 * bytes.Length && AllHex(text) && HexValue(text) == Value(bytes[..])
      ensures UpperHex(text)
    {
      var number := Number();
      text := Pad(HexDigits(number), 2 * bytes.Length);
      PrintedNumber(number, bytes.Length);
    }

    /** Note that the bytes are set before the rest of the input is rejected. */
    method FromHex(text: string) returns (r: Parsed)
      requires bytes.Length > 0 && Plain(text)
      modifies bytes
      ensures r.InvalidSize? <==> text == [] || |text| > 2 * bytes.Length
      ensures r.InvalidSize? ==> bytes[..] == old(bytes[..])
      ensures !r.InvalidSize? ==> Value(bytes[..]) == HexValue(HexPrefix(text))
      ensures !r.InvalidSize? ==> (r.Accepted? <==> AllHex(text))
      ensures r.Accepted? ==> Value(bytes[..]) == HexValue(text)
    {
      if text == [] || |text| > 2 * bytes.Length {
        return InvalidSize;
      }
      ghost var prefix := HexPrefix(text);
      var number, i := 0, 0;
      while i < |text| && IsHex(text[i])
        invariant 0 <= i <= |prefix| && number == HexValue(prefix[..i])
      {
        assert text[i] == prefix[i];
        assert prefix[..i + 1][..i] == prefix[..i];
        number := 16 * number + Digit(text[i]);
        i := i + 1;
      }
      assert i == |prefix| && prefix[..i] == prefix;
      HexValueBound(prefix);
      PowGrows(16, |prefix|, 2 * bytes.Length);
      PowNibbles(bytes.Length);
      Set(number);
      if i < |text| {
        return InvalidFormat;
      }
      assert prefix == text;
      return Accepted;
    }
  }

  /** `set` then `number`. */
  method SetThenNumber(x: BigInt, number: nat) returns (read: nat)
    requires number < Pow(256, x.bytes.Length) && x.bytes.Length > 0
    modifies x.bytes
    ensures read == number
  {
    x.Set(number);
    read := x.Number();
  }

  /** `from_hex` of `to_hex` restores the value, whatever was there before. */
  method PrintThenParse(x: BigInt, y: BigInt) returns (r: Parsed)
    requires x.bytes.Length == y.bytes.Length > 0
    modifies y.bytes
    ensures r == Accepted && y.bytes[..] == old(x.bytes[..])
  {
    var text := x.ToHex();
    HexIsPlain(text);
    ToBytesOfValue(x.bytes[..]);
    r := y.FromHex(text);
    ToBytesOfValue(y.bytes[..]);
  }

  /** `to_hex` of `from_hex` is the text in upper case, zero-padded. */
  method ParseThenPrint(x: BigInt, text: string) returns (printed: string)
    requires x.bytes.Length > 0 && AllHex(text) && 0 < |text| <= 2 * x.bytes.Length
    modifies x.bytes
    ensures printed == ZeroDigits(2 * x.bytes.Length - |text|) + Upper(text)
  {
    HexIsPlain(text);
    var r := x.FromHex(text);
    printed := x.ToHex();
    PrintParsed(text, 2 * x.bytes.Length);
  }
}
