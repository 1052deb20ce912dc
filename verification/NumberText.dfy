/** Numbers printed through a buffer of twelve characters, and read back from text or from raw bytes. */
module NumberText {
  import opened Arithmetic
  import opened Bytes
  import opened Wrappers

  const PRINT_BUF_LEN: nat := 12
  const WORD: nat := 0x1_0000_0000
  /** Number of values of an unsigned long. */
  const LONG: nat := 0x1_0000_0000_0000_0000

  type int32 = x: int | -0x8000_0000 <= x < 0x8000_0000

  /** The two bases of the print function's digit loop. */
  type base = b: int | b == 10 || b == 16 witness 10

  // ---- printing ----

  /** A digit; letters start at letbase, 'a' or 'A'. */
  function DigitChar(t: nat, upper: bool): (c: char)
    requires t < 16
    ensures DigitValue(c) == Some(t) && c != '.' && c != 'x' && c != 'X'
  {
    if t < 10 then ('0' as int + t) as char
    else ((if upper then 'A' as int else 'a' as int) + t - 10) as char
  }

  function DigitValue(c: char): Option<nat> {
    if '0' <= c <= '9' then Some(c as int - '0' as int)
    else if 'a' <= c <= 'f' then Some(c as int - 'a' as int + 10)
    else if 'A' <= c <= 'F' then Some(c as int - 'A' as int + 10)
    else None
  }

  /** Digits without leading zeros; none for zero. */
  function DigitsOf(u: nat, b: base, upper: bool): string {
    if u == 0 then "" else DigitsOf(u / b, b, upper) + [DigitChar(u % b, upper)]
  }

  function Power(b: base, k: nat): nat {
    if k == 0 then 1 else b * Power(b, k - 1)
  }

  /** Letters among the digits are all capitals or all small. */
  lemma {:induction false} LetterCase(u: nat, b: base, upper: bool)
    ensures forall c :: c in DigitsOf(u, b, upper) ==> if upper then !('a' <= c <= 'z') else !('A' <= c <= 'Z')
  {
    if u > 0 {
      LetterCase(u / b, b, upper);
    }
  }

  lemma {:induction false} DigitCount(u: nat, b: base, upper: bool, k: nat)
    requires u < Power(b, k)
    ensures |DigitsOf(u, b, upper)| <= k
    decreases k
  {
    if u > 0 {
      assert u < b * Power(b, k - 1);
      DigitCount(u / b, b, upper, k - 1);
    }
  }

  lemma TenDigits(u: nat, b: base, upper: bool)
    requires u < WORD
    ensures |DigitsOf(u, b, upper)| <= 10
  {
    PowerFive(b);
    DigitCount(u, b, upper, 10);
  }

  lemma PowerFive(b: base)
    ensures Power(b, 10) >= 10_000_000_000
  {
    assert Power(10, 5) == 100_000 && Power(16, 5) == 1_048_576;
    assert Power(10, 10) == 10 * (10 * (10 * (10 * (10 * Power(10, 5)))));
    assert Power(16, 10) == 16 * (16 * (16 * (16 * (16 * Power(16, 5)))));
  }

  function Repeated(c: char, n: nat): (s: string)
    ensures |s| == n
  {
    seq(n, _ => c)
  }

  /** The number of padding characters. */
  function Padding(len: nat, width: int): nat {
    if width > len then width - len else 0
  }

  function Padded(text: string, width: int, right: bool, zero: bool): string {
    var pad := Repeated(if zero && width > 0 then '0' else ' ', Padding(|text|, width));
    if right then text + pad else pad + text
  }

  /** Padding characters until the width is used up. */
  method Pad(out: string, padchar: char, width0: int) returns (result: string, pc: nat, width: int)
    ensures result == out + Repeated(padchar, pc)
    ensures pc == if width0 > 0 then width0 else 0
    ensures width == width0 - pc
  {
    result, pc, width := out, 0, width0;
    while width > 0
      invariant width == width0 - pc && (pc == 0 || width >= 0)
      invariant result == out + Repeated(padchar, pc)
    {
      result := result + [padchar];
      pc := pc + 1;
      width := width - 1;
    }
  }

  lemma NothingRepeated(c: char)
    ensures Repeated(c, 0) == ""
  {
  }

  method BinPrints(out: string, text: string, width0: int, right: bool, zero: bool) returns (result: string, pc: nat)
    ensures result == out + Padded(text, width0, right, zero)
    ensures pc == |Padded(text, width0, right, zero)|
  {
    hide Repeated, Padded;
    var width, padchar := width0, ' ';
    if width > 0 {
      var len := |text|;
      if len >= width {
        width := 0;
      } else {
        width := width - len;
      }
      if zero {
        padchar := '0';
      }
    }
    ghost var n := Padding(|text|, width0);
    assert (if width > 0 then width else 0) == n;
    hide Padding;
    NothingRepeated(padchar);
    result, pc := out, 0;
    if !right {
      result, pc, width := Pad(result, padchar, width);
    }
    ghost var before := result;
    ghost var left := pc;
    assert before == out + Repeated(padchar, left) && left == if right then 0 else n;
    for i := 0 to |text|
      invariant result == before + text[..i] && pc == left + i
    {
      result := result + [text[i]];
      pc := pc + 1;
    }
    assert text[..|text|] == text;
    var more;
    result, more, width := Pad(result, padchar, width);
    pc := pc + more;
    PaddedIs(text, width0, right, zero, padchar, left, more);
    assert result == out + (Repeated(padchar, left) + text + Repeated(padchar, more));
  }

  lemma PaddedIs(text: string, width: int, right: bool, zero: bool, padchar: char, left: nat, behind: nat)
    requires padchar == if zero && width > 0 then '0' else ' '
    requires left == if right then 0 else Padding(|text|, width)
    requires behind == if right then Padding(|text|, width) else 0
    ensures Repeated(padchar, left) + text + Repeated(padchar, behind) == Padded(text, width, right, zero)
    ensures |Padded(text, width, right, zero)| == left + |text| + behind
  {
    NothingRepeated(padchar);
    hide Repeated;
    if right {
      assert "" + text + Repeated(padchar, behind) == text + Repeated(padchar, behind);
    } else {
      assert Repeated(padchar, left) + text + "" == Repeated(padchar, left) + text;
    }
  }

  /** The unsigned number whose digits are printed. */
  function Magnitude(i: int32, b: base, signed: bool): (u: nat)
    ensures u < WORD && (i < 0 && signed && b == 10 ==> u == -(i as int))
  {
    if signed && b == 10 && i < 0 then -(i as int) else if i < 0 then i as int + WORD else i as int
  }

  predicate Negative(i: int32, b: base, signed: bool) {
    signed && b == 10 && i < 0
  }

  /** The printed text. */
  function Printed(i: int32, b: base, signed: bool, width: nat, right: bool, zero: bool, upper: bool): string {
    if i == 0 then Padded("0", width, right, zero)
    else
      var digits := DigitsOf(Magnitude(i, b, signed), b, upper);
      if !Negative(i, b, signed) then Padded(digits, width, right, zero)
      else if width > 0 && zero then "-" + Padded(digits, width - 1, right, zero)
      else Padded("-" + digits, width, right, zero)
  }

  /** Writes the digits backwards, ending at the terminator; s is the index of the first one. */
  method WriteDigits(printBuf: array<char>, u0: nat, b: base, upper: bool) returns (s: nat)
    requires printBuf.Length == PRINT_BUF_LEN && u0 < WORD
    modifies printBuf
    ensures 1 <= s <= PRINT_BUF_LEN - 1 && printBuf[s..PRINT_BUF_LEN - 1] == DigitsOf(u0, b, upper)
    ensures s == PRINT_BUF_LEN - 1 - |DigitsOf(u0, b, upper)|
  {
    TenDigits(u0, b, upper);
    ghost var all := DigitsOf(u0, b, upper);
    s := PRINT_BUF_LEN - 1;
    printBuf[s] := '\0';
    var u: nat := u0;
    assert all + printBuf[s..PRINT_BUF_LEN - 1] == all;
    while u > 0
      invariant |DigitsOf(u, b, upper)| + (PRINT_BUF_LEN - 1 - s) == |all| && s <= PRINT_BUF_LEN - 1
      invariant DigitsOf(u, b, upper) + printBuf[s..PRINT_BUF_LEN - 1] == all
      decreases u
    {
      var t := u % b;
      ghost var before := printBuf[s..PRINT_BUF_LEN - 1];
      s := s - 1;
      printBuf[s] := DigitChar(t, upper);
      assert printBuf[s..PRINT_BUF_LEN - 1] == [DigitChar(t, upper)] + before;
      assert DigitsOf(u / b, b, upper) + ([DigitChar(t, upper)] + before) == DigitsOf(u, b, upper) + before;
      u := u / b;
    }
  }

  /** binPrinti for bases 10 and 16; the buffer of twelve characters suffices, sign and terminator included. */
  method BinPrinti(out: string, i: int32, b: base, signed: bool, width0: nat, right: bool, zero: bool, upper: bool)
    returns (result: string, pc: nat)
    ensures result == out + Printed(i, b, signed, width0, right, zero, upper)
    ensures pc == |Printed(i, b, signed, width0, right, zero, upper)|
  {
    hide Padded, DigitsOf;
    if i == 0 {
      result, pc := BinPrints(out, "0", width0, right, zero);
      return;
    }
    var u, neg := Magnitude(i, b, signed), Negative(i, b, signed);
    var printBuf := new char[PRINT_BUF_LEN];
    var s := WriteDigits(printBuf, u, b, upper);
    ghost var digits := printBuf[s..PRINT_BUF_LEN - 1];
    var width, sign := width0, out;
    var count := 0;
    if neg {
      if width != 0 && zero {
        sign := out + ['-'];
        count := 1;
        width := width - 1;
      } else {
        s := s - 1;
        printBuf[s] := '-';
        assert printBuf[s..PRINT_BUF_LEN - 1] == "-" + digits;
      }
    }
    result, pc := BinPrints(sign, printBuf[s..PRINT_BUF_LEN - 1], width, right, zero);
    pc := count + pc;
  }

  /** The buffer is tight: a negative number of ten digits fills all twelve characters, and no number needs more. */
  lemma BufferIsTight()
    ensures |Printed(-1_000_000_000, 10, true, 0, false, false, false)| + 1 == PRINT_BUF_LEN
    ensures forall i: int32 :: |Printed(i, 10, true, 0, false, false, false)| + 1 <= PRINT_BUF_LEN
  {
    forall i: int32
      ensures |Printed(i, 10, true, 0, false, false, false)| + 1 <= PRINT_BUF_LEN
    {
      TenDigits(Magnitude(i, 10, true), 10, false);
    }
    BillionDigits();
  }

  lemma BillionDigits()
    ensures |DigitsOf(1_000_000_000, 10, false)| == 10
  {
    assert |DigitsOf(10_000, 10, false)| == 5 by {
      assert |DigitsOf(1, 10, false)| == 1;
      assert |DigitsOf(10, 10, false)| == 2;
      assert |DigitsOf(100, 10, false)| == 3;
      assert |DigitsOf(1_000, 10, false)| == 4;
    }
    assert |DigitsOf(100_000, 10, false)| == 6;
    assert |DigitsOf(1_000_000, 10, false)| == 7;
    assert |DigitsOf(10_000_000, 10, false)| == 8;
    assert |DigitsOf(100_000_000, 10, false)| == 9;
  }

  // ---- reading text ----

  function IndexOf(s: string, c: char): (i: nat)
    ensures i <= |s| && (i < |s| ==> s[i] == c) && (i == |s| <==> c !in s)
  {
    if s == "" || s[0] == c then 0 else 1 + IndexOf(s[1..], c)
  }

  /** The value of a digit string, as an unsigned long; None for any other character. */
  function ReadDigits(p: string, b: nat): Option<nat> {
    if p == "" then Some(0)
    else
      var front, digit := ReadDigits(p[..|p| - 1], b), DigitValue(p[|p| - 1]);
      if front.None? || digit.None? || digit.value >= b then None else Some((front.value * b + digit.value) % LONG)
  }

  predicate HexPrefixed(p: string) {
    |p| >= 2 && p[0] == '0' && (p[1] == 'x' || p[1] == 'X')
  }

  /** A point separates two 16-bit halves. */
  function Halves(v1: Option<nat>, v2: Option<nat>): Option<nat> {
    if v1.None? || v2.None? then None else Some((v1.value * 0x1_0000 + v2.value) % LONG)
  }

  /** _binAtob: a prefix 0x selects base 16, where one point is allowed. */
  function Atob(p0: string, base0: nat): Option<nat>
    decreases |p0|
  {
    var p, b := if HexPrefixed(p0) then p0[2..] else p0, if HexPrefixed(p0) then 16 else base0;
    var q := IndexOf(p, '.');
    if b == 16 && q < |p| then
      if q > 19 || '.' in p[q + 1..] then None else Halves(Atob(p[..q], 16), Atob(p[q + 1..], 16))
    else ReadDigits(p, b)
  }

  method BinAtobDigits(p: string, b: nat) returns (v: Option<nat>)
    ensures v == ReadDigits(p, b)
  {
    var value := 0;
    for i := 0 to |p|
      invariant ReadDigits(p[..i], b) == Some(value)
    {
      assert p[..i + 1][..i] == p[..i];
      var digit := DigitValue(p[i]);
      if digit.None? || digit.value >= b {
        ReadFails(p, b, i);
        return None;
      }
      value := (value * b + digit.value) % LONG;
    }
    assert p[..|p|] == p;
    v := Some(value);
  }

  lemma {:induction false} ReadFails(p: string, b: nat, i: nat)
    requires i < |p| && (DigitValue(p[i]).None? || DigitValue(p[i]).value >= b)
    ensures ReadDigits(p, b) == None
    decreases |p|
  {
    if i < |p| - 1 {
      ReadFails(p[..|p| - 1], b, i);
    }
  }

  lemma AtobPoint(p0: string, base0: nat, p: string, b: nat, q: nat)
    requires p == (if HexPrefixed(p0) then p0[2..] else p0) && b == (if HexPrefixed(p0) then 16 else base0)
    requires q == IndexOf(p, '.')
    ensures b == 16 && q < |p| ==>
              Atob(p0, base0) == if q > 19 || '.' in p[q + 1..] then None
                                 else Halves(Atob(p[..q], 16), Atob(p[q + 1..], 16))
    ensures !(b == 16 && q < |p|) ==> Atob(p0, base0) == ReadDigits(p, b)
  {
    hide ReadDigits, IndexOf, DigitValue, Halves, HexPrefixed;
  }

  method BinAtob(p0: string, base0: nat) returns (v: Option<nat>)
    ensures v == Atob(p0, base0)
    decreases |p0|
  {
    hide ReadDigits, IndexOf, DigitValue, Atob;
    var p, b := p0, base0;
    if HexPrefixed(p) {
      b := 16;
      p := p[2..];
    }
    var q := IndexOf(p, '.');
    AtobPoint(p0, base0, p, b, q);
    if b == 16 && q < |p| {
      if q > 19 {
        return None;
      }
      var v1 := BinAtob(p[..q], 16);
      if v1.None? {
        return None;
      }
      if IndexOf(p[q + 1..], '.') < |p[q + 1..]| {
        return None;
      }
      var v2 := BinAtob(p[q + 1..], 16);
      return Halves(v1, v2);
    }
    v := BinAtobDigits(p, b);
  }

  // ---- what is printed is read back ----

  lemma ReadMore(p: string, c: char, b: nat)
    ensures ReadDigits(p + [c], b)
            == (if ReadDigits(p, b).None? || DigitValue(c).None? || DigitValue(c).value >= b then None
                else Some((ReadDigits(p, b).value * b + DigitValue(c).value) % LONG))
  {
    assert (p + [c])[..|p|] == p;
  }

  lemma {:induction false} DigitsRead(u: nat, b: base, upper: bool)
    requires u < LONG
    ensures ReadDigits(DigitsOf(u, b, upper), b) == Some(u)
  {
    hide DigitValue, ReadDigits;
    if u > 0 {
      DigitsRead(u / b, b, upper);
      ReadMore(DigitsOf(u / b, b, upper), DigitChar(u % b, upper), b);
      assert u / b * b + u % b == u;
    } else {
      ReadNone(b);
    }
  }

  lemma ReadNone(b: nat)
    ensures ReadDigits("", b) == Some(0)
  {
  }

  /** Zeros in front do not matter. */
  lemma {:induction false} ZerosInFront(n: nat, t: string, b: nat)
    requires b > 0
    ensures ReadDigits(Repeated('0', n) + t, b) == ReadDigits(t, b)
  {
    if t != "" {
      var front, last := t[..|t| - 1], t[|t| - 1];
      ZerosInFront(n, front, b);
      assert front + [last] == t && Repeated('0', n) + t == (Repeated('0', n) + front) + [last];
      ReadMore(Repeated('0', n) + front, last, b);
      ReadMore(front, last, b);
    } else {
      assert Repeated('0', n) + t == Repeated('0', n);
      OnlyZeros(n, b);
    }
  }

  lemma {:induction false} OnlyZeros(n: nat, b: nat)
    requires b > 0
    ensures ReadDigits(Repeated('0', n), b) == Some(0)
  {
    if n > 0 {
      OnlyZeros(n - 1, b);
      assert Repeated('0', n) == Repeated('0', n - 1) + ['0'];
      ReadMore(Repeated('0', n - 1), '0', b);
    }
  }

  /** Zeros behind a number multiply it by powers of the base, modulo the size of a long. */
  lemma {:induction false} ZerosBehind(n: nat, t: string, b: base)
    requires ReadDigits(t, b).Some?
    ensures ReadDigits(t + Repeated('0', n), b) == Some(ReadDigits(t, b).value * Power(b, n) % LONG) || n == 0
    ensures n == 0 ==> t + Repeated('0', n) == t
  {
    hide ReadDigits, DigitValue;
    if n > 0 {
      ZerosBehind(n - 1, t, b);
      var before := t + Repeated('0', n - 1);
      assert t + Repeated('0', n) == before + ['0'];
      ReadMore(before, '0', b);
      ZeroDigit();
      var v := ReadDigits(t, b).value;
      if n == 1 {
        assert Power(b, 1) == b;
      } else {
        ModTimes(v * Power(b, n - 1), b);
        assert v * Power(b, n - 1) * b == v * Power(b, n);
      }
    }
  }

  lemma ZeroDigit()
    ensures DigitValue('0') == Some(0)
  {
  }

  lemma ModTimes(a: nat, b: nat)
    ensures (a % LONG) * b % LONG == a * b % LONG
  {
    var q, r := a / LONG, a % LONG;
    assert a * b == r * b + LONG * (q * b);
    ModShift(r * b, q * b);
  }

  lemma {:induction false} ModShift(a: nat, k: nat)
    ensures (a + LONG * k) % LONG == a % LONG
  {
    if k > 0 {
      ModShift(a, k - 1);
      assert (a + LONG * (k - 1) + LONG) % LONG == (a + LONG * (k - 1)) % LONG;
    }
  }

  function Two(j: nat): nat {
    if j == 0 then 1 else 2 * Two(j - 1)
  }

  lemma TwoIsLong()
    ensures Two(64) == LONG
  {
    assert Two(8) == 256 by {
      assert Two(4) == 16;
    }
    hide Two;
    TwoSum(8, 8);
    TwoSum(16, 16);
    TwoSum(32, 32);
  }

  lemma {:induction false} TwoSum(a: nat, b: nat)
    ensures Two(a + b) == Two(a) * Two(b)
  {
    if a > 0 {
      TwoSum(a - 1, b);
      TwiceProduct(Two(a - 1), Two(b));
    }
  }

  lemma TwiceProduct(p: nat, q: nat)
    ensures 2 * (p * q) == (2 * p) * q
  {
  }

  /** A power of two that divides u times an odd number divides u. */
  lemma {:induction false} OddFactor(u: nat, m: nat, j: nat, q: nat) returns (k: nat)
    requires m % 2 == 1 && u * m == Two(j) * q
    ensures u == Two(j) * k
  {
    if j == 0 {
      k := u;
    } else {
      assert u * m == 2 * (Two(j - 1) * q);
      EvenFactor(u, m, Two(j - 1) * q);
      var h := u / 2;
      assert 2 * (h * m) == 2 * (Two(j - 1) * q);
      k := OddFactor(h, m, j - 1, q);
      assert 2 * (Two(j - 1) * k) == Two(j) * k;
    }
  }

  lemma OddTimesOdd(k: nat, h: nat)
    ensures (2 * k + 1) * (2 * h + 1) == 2 * (2 * k * h + k + h) + 1
  {
  }

  lemma EvenFactor(u: nat, m: nat, r: nat)
    requires m % 2 == 1 && u * m == 2 * r
    ensures u % 2 == 0
  {
    if u % 2 == 1 {
      OddTimesOdd(u / 2, m / 2);
    }
  }

  /** Zeros behind a number other than zero change it, also where the product does not fit a long. */
  lemma ZerosChange(u: nat, b: base, n: nat)
    requires 0 < u < WORD && n > 0
    ensures u * Power(b, n) % LONG != u
  {
    hide Power, Two;
    var p := Power(b, n);
    PowerEven(b, n);
    var product := u * p;
    OneLess(u, p);
    if product % LONG == u {
      TwoIsLong();
      var k := OddFactor(u, p - 1, 64, product / LONG);
      MultipleOfLong(u, k);
    }
  }

  lemma OneLess(u: nat, p: nat)
    requires p > 0
    ensures u * (p - 1) == u * p - u
  {
  }

  lemma MultipleOfLong(u: nat, k: nat)
    requires u == LONG * k && u < LONG
    ensures u == 0
  {
  }

  lemma {:induction false} PowerEven(b: base, n: nat)
    requires n > 0
    ensures Power(b, n) % 2 == 0 && Power(b, n) > 0
  {
    if n == 1 {
      assert Power(b, 1) == b;
    } else {
      PowerEven(b, n - 1);
    }
  }

  // ---- when a printed number is read back ----

  /** The digits of a number, "0" for zero. */
  function TextOf(u: nat, b: base, upper: bool): string {
    if u == 0 then "0" else DigitsOf(u, b, upper)
  }

  function Digits(i: int32, b: base, upper: bool): string {
    TextOf(Magnitude(i, b, false), b, upper)
  }

  lemma {:induction false} PlainDigits(u: nat, b: base, upper: bool)
    ensures forall k :: 0 <= k < |DigitsOf(u, b, upper)| ==>
              DigitsOf(u, b, upper)[k] != '.' && DigitsOf(u, b, upper)[k] != 'x' && DigitsOf(u, b, upper)[k] != 'X'
  {
    if u > 0 {
      PlainDigits(u / b, b, upper);
    }
  }

  lemma PlainAtob(text: string, b: base)
    requires forall k :: 0 <= k < |text| ==> text[k] != '.' && text[k] != 'x' && text[k] != 'X'
    ensures Atob(text, b) == ReadDigits(text, b)
  {
    hide ReadDigits;
  }

  lemma PlainText(u: nat, b: base, upper: bool, left: nat, right: nat, pad: char)
    requires pad == '0' || pad == ' '
    ensures var text := Repeated(pad, left) + TextOf(u, b, upper) + Repeated(pad, right);
            Atob(text, b) == ReadDigits(text, b)
  {
    PlainDigits(u, b, upper);
    hide Atob, ReadDigits, DigitsOf;
    PlainAtob(Repeated(pad, left) + TextOf(u, b, upper) + Repeated(pad, right), b);
  }

  lemma DigitsValue(u: nat, b: base, upper: bool)
    requires u < WORD
    ensures ReadDigits(TextOf(u, b, upper), b) == Some(u)
  {
    if u == 0 {
      OnlyZeros(1, b);
      assert Repeated('0', 1) == "0";
    } else {
      DigitsRead(u, b, upper);
    }
  }

  /** Printed unsigned, without regard to the buffer: the digits with padding on one side. */
  lemma PrintedUnsigned(i: int32, b: base, width: nat, right: bool, zero: bool, upper: bool)
    ensures Printed(i, b, false, width, right, zero, upper) == Padded(Digits(i, b, upper), width, right, zero)
  {
  }

  /** Padded digits are read back if they needed no padding, or zeros on the left, or are the zero padded with zeros. */
  lemma PaddedReadBack(u: nat, b: base, width: nat, right: bool, zero: bool, upper: bool)
    requires u < WORD
    ensures var text := TextOf(u, b, upper);
            var n := Padding(|text|, width);
            Atob(Padded(text, width, right, zero), b) == Some(u) <==> n == 0 || (zero && (!right || u == 0))
  {
    hide Atob, ReadDigits, DigitValue, TextOf;
    var text := TextOf(u, b, upper);
    var n, pad := Padding(|text|, width), if zero && width > 0 then '0' else ' ';
    DigitsValue(u, b, upper);
    if right {
      PlainText(u, b, upper, 0, n, pad);
      assert Repeated(pad, 0) + text + Repeated(pad, n) == text + Repeated(pad, n);
    } else {
      PlainText(u, b, upper, n, 0, pad);
      assert Repeated(pad, n) + text + Repeated(pad, 0) == Repeated(pad, n) + text;
    }
    if n == 0 {
      assert Padded(text, width, right, zero) == text;
    } else if !zero {
      SpaceRefused();
      ReadFails(Padded(text, width, right, zero), b, if right then |text| else 0);
    } else if right {
      ZerosBehind(n, text, b);
      if u != 0 {
        ZerosChange(u, b, n);
      }
    } else {
      ZerosInFront(n, text, b);
    }
  }

  /**
   A 32-bit number printed without sign in base 10 or 16 is read back as the same number, if and only if
   it needed no padding, or the padding was zeros on the left, or it was the zero padded with zeros.
   */
  lemma PrintedReadBack(i: int32, b: base, width: nat, right: bool, zero: bool, upper: bool)
    ensures var n := Padding(|Digits(i, b, upper)|, width);
            Atob(Printed(i, b, false, width, right, zero, upper), b) == Some(Magnitude(i, b, false))
            <==> n == 0 || (zero && (!right || i == 0))
  {
    hide Atob, Padded, Padding, Printed, TextOf;
    PrintedUnsigned(i, b, width, right, zero, upper);
    PaddedReadBack(Magnitude(i, b, false), b, width, right, zero, upper);
    MagnitudeZero(i, b);
  }

  // ---- signed numbers ----

  /** What a text of a sign and decimal digits stands for. */
  function SignedValue(text: string): Option<int> {
    if text != "" && text[0] == '-' then
      match Atob(text[1..], 10)
      case Some(v) => Some(-(v as int))
      case None => None
    else
      match Atob(text, 10)
      case Some(v) => Some(v as int)
      case None => None
  }

  function Absolute(i: int32): nat {
    if i < 0 then -(i as int) else i as int
  }

  /** A negative number: the sign in front of its padded digits, or blanks in front of the sign. */
  lemma PrintedNegative(i: int32, width: nat, right: bool, zero: bool, upper: bool)
    requires i < 0
    ensures var digits, text := TextOf(Absolute(i), 10, upper), Printed(i, 10, true, width, right, zero, upper);
            var n, less := Padding(1 + |digits|, width), if width > 0 then width - 1 else 0;
            && n == Padding(|digits|, less)
            && if right || n == 0 || zero then text == "-" + Padded(digits, less, right, zero)
               else text == Repeated(' ', n) + ("-" + digits)
  {
    hide DigitsOf;
    var digits := TextOf(Absolute(i), 10, upper);
    var n := Padding(1 + |digits|, width);
    assert |"-" + digits| == 1 + |digits|;
    assert "-" + (digits + Repeated(' ', n)) == "-" + digits + Repeated(' ', n);
    assert "-" + (Repeated(' ', 0) + digits) == Repeated(' ', 0) + ("-" + digits);
  }

  /** No digit is a sign. */
  lemma {:induction false} NoSign(u: nat, b: base, upper: bool)
    ensures '-' !in DigitsOf(u, b, upper)
  {
    if u > 0 {
      NoSign(u / b, b, upper);
    }
  }

  lemma NoSignPadded(u: nat, width: nat, right: bool, zero: bool, upper: bool)
    ensures '-' !in Padded(TextOf(u, 10, upper), width, right, zero)
  {
    NoSign(u, 10, upper);
  }

  lemma BlankRefused(n: nat, digits: string)
    requires n > 0 && forall k :: 0 <= k < |digits| ==> digits[k] != '.' && digits[k] != 'x' && digits[k] != 'X'
    ensures SignedValue(Repeated(' ', n) + ("-" + digits)) == None
  {
    hide ReadDigits, Atob;
    var text := Repeated(' ', n) + ("-" + digits);
    PlainAtob(text, 10);
    SpaceRefused();
    ReadFails(text, 10, 0);
  }

  lemma NegativeReadBack(i: int32, width: nat, right: bool, zero: bool, upper: bool)
    requires i < 0
    ensures SignedValue(Printed(i, 10, true, width, right, zero, upper)) == Some(i as int)
            <==> Padding(1 + |TextOf(Absolute(i), 10, upper)|, width) == 0 || (zero && !right)
  {
    var u := Absolute(i);
    PlainDigits(u, 10, upper);
    hide Atob, ReadDigits, Printed, Padded, DigitsOf, Padding, Repeated, Absolute;
    var digits, less := TextOf(u, 10, upper), if width > 0 then width - 1 else 0;
    PrintedNegative(i, width, right, zero, upper);
    if right || Padding(1 + |digits|, width) == 0 || zero {
      var rest := Padded(digits, less, right, zero);
      PaddedReadBack(u, 10, less, right, zero, upper);
      assert ("-" + rest)[0] == '-' && ("-" + rest)[1..] == rest;
    } else {
      BlankRefused(Padding(1 + |digits|, width), digits);
    }
  }

  /**
   A 32-bit number printed with sign in base 10 stands for itself, if and only if it needed no padding, or the padding
   was zeros on the left, or it was the zero padded with zeros.
   */
  lemma SignedReadBack(i: int32, width: nat, right: bool, zero: bool, upper: bool)
    ensures var n := Padding(|TextOf(Absolute(i), 10, upper)| + (if i < 0 then 1 else 0), width);
            SignedValue(Printed(i, 10, true, width, right, zero, upper)) == Some(i as int)
            <==> n == 0 || (zero && (!right || i == 0))
  {
    if i < 0 {
      hide *;
      NegativeReadBack(i, width, right, zero, upper);
    } else {
      var u := Absolute(i);
      assert Printed(i, 10, true, width, right, zero, upper) == Padded(TextOf(u, 10, upper), width, right, zero);
      NoSignPadded(u, width, right, zero, upper);
      hide Atob, Printed, Padded, TextOf;
      PaddedReadBack(u, 10, width, right, zero, upper);
    }
  }

  /** Five in a field of two: a blank in front is refused, a zero behind makes it fifty. */
  lemma PaddedFiveIsLost()
    ensures Printed(5, 10, false, 2, false, false, false) == " 5" && Atob(" 5", 10) != Some(5)
    ensures Printed(5, 10, false, 2, true, true, false) == "50" && Atob("50", 10) != Some(5)
  {
    assert DigitsOf(0, 10, false) == "" && DigitsOf(5, 10, false) == "5";
    assert Repeated(' ', 1) == " " && Repeated('0', 1) == "0";
    PrintedReadBack(5, 10, 2, false, false, false);
    PrintedReadBack(5, 10, 2, true, true, false);
  }

  lemma SpaceRefused()
    ensures DigitValue(' ') == None
  {
  }

  lemma MagnitudeZero(i: int32, b: base)
    ensures Magnitude(i, b, false) == 0 <==> i == 0
  {
  }

  // ---- raw bytes: "%Ny" ----

  lemma {:induction false} ToBeAt(n: nat, w: nat, j: nat)
    requires j < w
    ensures Pow256(w - 1 - j) > 0 && ToBe(n, w)[j] == n / Pow256(w - 1 - j) % 256
  {
    if j < w - 1 {
      ToBeAt(n / 256, w - 1, j);
      DivideTwice(n, Pow256(w - 2 - j));
    }
  }

  lemma DivideTwice(n: nat, p: nat)
    requires p > 0
    ensures n / 256 / p == n / (256 * p)
  {
    var q, r := n / 256 / p, n / 256 % p;
    assert n / 256 == p * q + r;
    var s := 256 * r + n % 256;
    assert n == (256 * p) * q + s by {
      assert 256 * (p * q) == (256 * p) * q;
    }
    assert 0 <= s < 256 * p;
    DivideUnique(n, 256 * p, q, s);
  }

  /** A byte of a number by arithmetic shift is the byte of its two's complement. */
  lemma ShiftedByte(i: int32, k: nat)
    requires k < 4
    ensures Pow256(k) > 0 && i as int / Pow256(k) % 256 == Magnitude(i, 10, false) / Pow256(k) % 256
  {
    assert Pow256(1) == 256 && Pow256(2) == 0x1_0000 && Pow256(3) == 0x100_0000;
    var n: int := i;
    if k == 0 {
      assert (n + WORD) % 256 == n % 256;
    } else if k == 1 {
      assert (n + WORD) / 256 == n / 256 + 0x100_0000;
    } else if k == 2 {
      assert (n + WORD) / 0x1_0000 == n / 0x1_0000 + 0x1_0000;
    } else {
      assert (n + WORD) / 0x100_0000 == n / 0x100_0000 + 0x100;
    }
  }

  /** The print function for base 1: the bytes of a number, most significant first. */
  method BinPrintiBytes(out: seq<byte>, i: int32, width0: nat) returns (result: seq<byte>, cnt: nat)
    requires width0 <= 4
    ensures result == out + ToBe(Magnitude(i, 10, false), width0) && cnt == width0
  {
    hide ToBe, Pow256;
    ghost var all := ToBe(Magnitude(i, 10, false), width0);
    result, cnt := out, 0;
    var width := width0;
    while width > 0
      invariant 0 <= width <= width0 && cnt == width0 - width
      invariant result == out + all[..cnt]
    {
      width := width - 1;
      ShiftedByte(i, width);
      ToBeAt(Magnitude(i, 10, false), width0, cnt);
      var ch := i as int / Pow256(width) % 256;
      result := result + [ch];
      cnt := cnt + 1;
    }
    assert all[..cnt] == all;
  }

  predicate IsSpace(c: byte) {
    c == 0x20 || 0x09 <= c <= 0x0D
  }

  /** Leading whitespace. */
  function Spaces(buf: seq<byte>): (n: nat)
    ensures n <= |buf|
  {
    if buf == [] || !IsSpace(buf[0]) then 0 else 1 + Spaces(buf[1..])
  }

  lemma {:induction false} SpacesAt(buf: seq<byte>, n: nat)
    requires n <= |buf| && (forall k :: 0 <= k < n ==> IsSpace(buf[k])) && (n < |buf| ==> !IsSpace(buf[n]))
    ensures Spaces(buf) == n
    decreases n
  {
    if n > 0 {
      SpacesAt(buf[1..], n - 1);
    }
  }

  /** The scan of "%Ny": skip whitespace, take width bytes, store them in the host's order. */
  method ScanBytes(buf: seq<byte>, width: nat) returns (dest: seq<byte>, pos: nat)
    requires width <= 8 && Spaces(buf) + width <= |buf|
    ensures pos == Spaces(buf) && dest == Scanned(buf, width)
  {
    hide Be, Reversed, Spaces, ToBe, ToLe;
    pos := 0;
    while pos < |buf| && IsSpace(buf[pos])
      invariant pos <= |buf| && forall k :: 0 <= k < pos ==> IsSpace(buf[k])
    {
      pos := pos + 1;
    }
    SpacesAt(buf, pos);
    var tmp := buf[pos..pos + width];
    var destVal: nat := 0;
    EmptyValue();
    assert tmp[..0] == [];
    for i := 0 to width
      invariant destVal == Be(tmp[..i])
    {
      BeMore(tmp, i);
      BeFits(tmp[..i + 1]);
      destVal := (destVal * 256 + tmp[i]) % LONG;
    }
    assert tmp[..width] == tmp;
    ghost var value := destVal;
    dest := [];
    for i := 0 to width
      invariant dest == ToLe(value, i)
    {
      ToLeMore(value, i);
      dest := dest + [destVal / Pow256(i) % 256];
    }
    ToBeBe(tmp);
    ReversedToLe(value, width);
    ReversedTwice(ToLe(value, width));
  }

  lemma EmptyValue()
    ensures Be([]) == 0 && forall n :: ToLe(n, 0) == []
  {
  }

  lemma BeMore(s: seq<byte>, i: nat)
    requires i < |s|
    ensures Be(s[..i + 1]) == Be(s[..i]) * 256 + s[i]
  {
    assert s[..i + 1][..i] == s[..i];
  }

  lemma BeFits(s: seq<byte>)
    requires |s| <= 8
    ensures Be(s) < LONG
  {
    BeBound(s);
    PowerMonotone(|s|, 8);
    PowerEight();
  }

  lemma PowerEight()
    ensures Pow256(8) == LONG
  {
    assert Pow256(4) == 0x1_0000_0000 by {
      assert Pow256(2) == 0x1_0000;
      assert Pow256(3) == 0x100_0000;
    }
    assert Pow256(5) == 0x100_0000_0000;
    assert Pow256(6) == 0x1_0000_0000_0000;
    assert Pow256(7) == 0x100_0000_0000_0000;
  }

  lemma {:induction false} PowerMonotone(a: nat, b: nat)
    requires a <= b
    ensures 0 < Pow256(a) <= Pow256(b)
    decreases b
  {
    if a < b {
      PowerMonotone(a, b - 1);
    } else if b > 0 {
      PowerMonotone(a - 1, b - 1);
    }
  }

  lemma {:induction false} ToLeMore(n: nat, i: nat)
    ensures Pow256(i) > 0 && ToLe(n, i + 1) == ToLe(n, i) + [n / Pow256(i) % 256]
  {
    if i > 0 {
      ToLeMore(n / 256, i - 1);
      DivideTwice(n, Pow256(i - 1));
    } else {
      assert ToLe(n / 256, 0) == [];
    }
  }

  lemma ReversedTwice(s: seq<byte>)
    ensures Reversed(Reversed(s)) == s
  {
    forall k | 0 <= k < |s|
      ensures Reversed(Reversed(s))[k] == s[k]
    {
      ReversedAt(Reversed(s), k);
      ReversedAt(s, |s| - 1 - k);
    }
  }

  /** What a scan of width bytes stores: the bytes behind leading whitespace, in the host's order. */
  function Scanned(buf: seq<byte>, width: nat): (dest: seq<byte>)
    requires Spaces(buf) + width <= |buf|
    ensures |dest| == width
  {
    Reversed(buf[Spaces(buf)..Spaces(buf) + width])
  }

  lemma {:induction false} BehindSpaces(buf: seq<byte>)
    ensures Spaces(buf) < |buf| ==> !IsSpace(buf[Spaces(buf)])
  {
    if buf != [] && IsSpace(buf[0]) {
      BehindSpaces(buf[1..]);
    }
  }

  lemma NoSpaces(buf: seq<byte>)
    requires buf != [] && !IsSpace(buf[0])
    ensures Spaces(buf) == 0
  {
  }

  lemma SameValue(s: seq<byte>, t: seq<byte>)
    requires |s| == |t|
    ensures Be(s) == Be(t) <==> s == t
  {
    ToBeBe(s);
    ToBeBe(t);
  }

  /** A skipped byte is missing at the front, and the byte read instead is no whitespace. */
  lemma TakenIsSent(sent: seq<byte>, rest: seq<byte>)
    requires sent != [] && Spaces(sent + rest) <= |rest|
    ensures Be((sent + rest)[Spaces(sent + rest)..Spaces(sent + rest) + |sent|]) == Be(sent) <==> !IsSpace(sent[0])
  {
    hide *;
    var buf, pos := sent + rest, Spaces(sent + rest);
    var taken := buf[pos..pos + |sent|];
    BehindSpaces(buf);
    assert taken[0] == buf[pos] && buf[0] == sent[0];
    if IsSpace(sent[0]) {
      if Be(taken) == Be(sent) {
        SameValue(taken, sent);
      }
    } else {
      NoSpaces(buf);
      assert taken == sent;
    }
  }

  /**
   A number written as raw bytes is what a scan of as many bytes returns, if and only if its first byte is not taken
   for whitespace.
   */
  lemma BytesReadBack(u: nat, width: nat, rest: seq<byte>)
    requires 0 < width && u < Pow256(width)
    requires Spaces(ToBe(u, width) + rest) <= |rest|
    ensures Le(Scanned(ToBe(u, width) + rest, width)) == u <==> !IsSpace(ToBe(u, width)[0])
  {
    hide Le, Be, ToBe, Reversed, Pow256, Spaces, IsSpace;
    BeToBe(u, width);
    ScannedIsSent(ToBe(u, width), rest);
  }

  lemma ScannedIsSent(sent: seq<byte>, rest: seq<byte>)
    requires sent != [] && Spaces(sent + rest) <= |rest|
    ensures Le(Scanned(sent + rest, |sent|)) == Be(sent) <==> !IsSpace(sent[0])
  {
    hide Le, Be, Reversed, Spaces, IsSpace;
    TakenIsSent(sent, rest);
    LeReversed((sent + rest)[Spaces(sent + rest)..Spaces(sent + rest) + |sent|]);
  }

  /** 0x20000000 starts with a blank: a scan of its four bytes and one more stores the last four. */
  lemma BlankByteSkipped()
    ensures ToBe(0x2000_0000, 4) + [1] == [0x20, 0, 0, 0, 1]
    ensures Spaces([0x20, 0, 0, 0, 1]) == 1 && Le(Scanned([0x20, 0, 0, 0, 1], 4)) == 1
  {
    var buf: seq<byte> := [0x20, 0, 0, 0, 1];
    ToBeFour(0x2000_0000);
    assert !IsSpace(buf[1..][0]) && Spaces(buf[1..]) == 0;
    assert buf[1..1 + 4] == [0, 0, 0, 1];
    LeReversed([0, 0, 0, 1]);
    BeFour(0, 0, 0, 1);
  }
}
