/** Hexadecimal text of a radar datagram: digits, tokens, and values rounded to 16-bit steps. */
module RadarText {
  import opened Arithmetic

  type digit = x: int | 0 <= x < 16

  type int16 = x: int | -0x8000 <= x < 0x8000

  const DIGITS: string := "0123456789abcdef"

  // ---- hexadecimal digits ----

  function DigitOf(n: digit): (c: char)
    ensures IsHex(c) && HexValue(c) == n
  {
    DIGITS[n]
  }

  predicate IsHex(c: char) {
    '0' <= c <= '9' || 'a' <= c <= 'f' || 'A' <= c <= 'F'
  }

  function HexValue(c: char): digit
    requires IsHex(c)
  {
    if c <= '9' then c as int - '0' as int
    else if c <= 'F' then c as int - 'A' as int + 10
    else c as int - 'a' as int + 10
  }

  predicate AllHex(s: string) {
    forall i :: 0 <= i < |s| ==> IsHex(s[i])
  }

  /** The number written by hexadecimal digits. */
  function HexNumber(s: string): nat
    requires AllHex(s)
  {
    if s == "" then 0 else 16 * HexNumber(s[..|s| - 1]) + HexValue(s[|s| - 1])
  }

  /** The last k hexadecimal digits of n. */
  function HexDigits(n: nat, k: nat): (s: string)
    ensures |s| == k && AllHex(s)
  {
    if k == 0 then "" else HexDigits(n / 16, k - 1) + [DigitOf(n % 16)]
  }

  /** "%x": no leading zeros. */
  function HexText(n: nat): (s: string)
    ensures s != "" && AllHex(s)
  {
    if n < 16 then [DigitOf(n)] else HexText(n / 16) + [DigitOf(n % 16)]
  }

  function Pow16(k: nat): nat {
    if k == 0 then 1 else 16 * Pow16(k - 1)
  }

  lemma {:induction false} DigitsRead(n: nat, k: nat)
    ensures Pow16(k) > 0 && HexNumber(HexDigits(n, k)) == n % Pow16(k)
  {
    if k > 0 {
      DigitsRead(n / 16, k - 1);
      var s := HexDigits(n, k);
      assert s[..k - 1] == HexDigits(n / 16, k - 1);
      ModStep(n, Pow16(k - 1));
    }
  }

  lemma ModStep(n: nat, p: nat)
    requires p > 0
    ensures 16 * (n / 16 % p) + n % 16 == n % (16 * p)
  {
    var q, r := n / 16, n % 16;
    var a, b := q / p, q % p;
    assert q == p * a + b;
    assert n == 16 * q + r == (16 * p) * a + (16 * b + r) by {
      assert 16 * (p * a) == (16 * p) * a;
    }
    assert 0 <= 16 * b + r < 16 * p;
    DivideUnique(n, 16 * p, a, 16 * b + r);
  }

  lemma {:induction false} TextRead(n: nat)
    ensures HexNumber(HexText(n)) == n
  {
    var s := HexText(n);
    if n >= 16 {
      TextRead(n / 16);
      assert s[..|s| - 1] == HexText(n / 16);
    } else {
      assert s[..0] == "";
    }
  }

  /** The digits behind the first j are those of the number without its higher part. */
  lemma {:induction false} LowDigits(n: nat, k: nat, j: nat)
    requires j <= k
    ensures HexDigits(n, k)[k - j..] == HexDigits(n, j)
  {
    if j > 0 {
      LowDigits(n / 16, k - 1, j - 1);
      var front, last := HexDigits(n / 16, k - 1), [DigitOf(n % 16)];
      assert HexDigits(n, k) == front + last && HexDigits(n, j) == HexDigits(n / 16, j - 1) + last;
      hide HexDigits;
      assert (front + last)[k - j..] == front[k - j..] + last;
    } else {
      assert HexDigits(n, k)[k..] == "";
    }
  }

  // ---- signed values ----

  /** Two's complement in 32 bits, as "%x" prints an int. */
  function Unsigned32(v: int): nat
    requires -0x8000_0000 <= v < 0x8000_0000
  {
    if v < 0 then v + 0x1_0000_0000 else v
  }

  /** Low 16 bits read as a short. */
  function Short(u: nat): int16 {
    var low := u % 0x1_0000;
    if low < 0x8000 then low else low - 0x1_0000
  }

  /** The int of a 32-bit pattern. */
  function Int(u: nat): int {
    var low := u % 0x1_0000_0000;
    if low < 0x8000_0000 then low else low - 0x1_0000_0000
  }

  /** Digits that "%x" reads: those before the first other character. */
  function HexPrefix(s: string): (p: string)
    ensures AllHex(p)
  {
    if s == "" || !IsHex(s[0]) then "" else [s[0]] + HexPrefix(s[1..])
  }

  lemma {:induction false} PrefixOfHex(s: string)
    requires AllHex(s)
    ensures HexPrefix(s) == s
  {
    if s != "" {
      PrefixOfHex(s[1..]);
    }
  }

  /** Strings of up to four characters are 16-bit numbers, longer ones 32-bit numbers. */
  function GetHexValue(str: string): int {
    var p := HexPrefix(str);
    if p == "" then 0
    else if |str| <= 4 then Short(HexNumber(p))
    else Int(HexNumber(p))
  }

  lemma FourDigits(s: string)
    requires |s| == 4 && AllHex(s)
    ensures HexNumber(s) == 0x1000 * HexValue(s[0]) + 0x100 * HexValue(s[1]) + 16 * HexValue(s[2]) + HexValue(s[3])
  {
    assert s[..3][..2] == s[..2] && s[..2][..1] == s[..1] && s[..1][..0] == "";
    assert HexNumber(s[..1]) == HexValue(s[0]);
    assert HexNumber(s[..2]) == 16 * HexNumber(s[..1]) + HexValue(s[1]);
    assert HexNumber(s[..3]) == 16 * HexNumber(s[..2]) + HexValue(s[2]);
  }

  lemma ShortOfDigits(a: digit, b: digit, c: digit, d: digit)
    ensures var u := 0x1000 * a + 0x100 * b + 16 * c + d;
            0 <= u && Short(u) == if a < 8 then u else u - 0x1_0000
  {
  }

  /** Four digits, the most significant one first, are a signed number of 16 bits. */
  lemma FourDigitValue(s: string)
    requires |s| == 4 && AllHex(s)
    ensures var u := 0x1000 * HexValue(s[0]) + 0x100 * HexValue(s[1]) + 16 * HexValue(s[2]) + HexValue(s[3]);
            GetHexValue(s) == if HexValue(s[0]) < 8 then u else u - 0x1_0000
  {
    hide HexNumber, HexPrefix, HexValue, Short;
    FourDigits(s);
    PrefixOfHex(s);
    ShortOfDigits(HexValue(s[0]), HexValue(s[1]), HexValue(s[2]), HexValue(s[3]));
  }

  /** "%08x" of a short without its first four digits. */
  function Print16(v: int16): (s: string)
    ensures |s| == 4 && AllHex(s)
  {
    HexDigits(Unsigned32(v), 8)[4..]
  }

  /** A short cast to a signed byte. */
  function Byte8(v: int16): int {
    var low := v % 256;
    if low < 128 then low else low - 256
  }

  /** "%08x" of a signed byte without its first six digits. */
  function Print8(v: int16): (s: string)
    ensures |s| == 2 && AllHex(s)
  {
    HexDigits(Unsigned32(Byte8(v)), 8)[6..]
  }

  lemma Powers()
    ensures Pow16(2) == 0x100 && Pow16(4) == 0x1_0000
  {
    assert Pow16(1) == 16 && Pow16(2) == 16 * Pow16(1) && Pow16(3) == 16 * Pow16(2) && Pow16(4) == 16 * Pow16(3);
  }

  /** The last j of eight digits, read as a number. */
  lemma LastDigitsRead(u: nat, j: nat)
    requires 0 < j <= 8
    ensures HexPrefix(HexDigits(u, 8)[8 - j..]) == HexDigits(u, 8)[8 - j..] != ""
    ensures Pow16(j) > 0 && HexNumber(HexDigits(u, 8)[8 - j..]) == u % Pow16(j)
  {
    hide HexNumber, HexDigits, Pow16, HexPrefix;
    LowDigits(u, 8, j);
    DigitsRead(u, j);
    PrefixOfHex(HexDigits(u, j));
  }

  /** Every short is read back as it was. */
  lemma Print16Read(v: int16)
    ensures GetHexValue(Print16(v)) == v
  {
    hide HexNumber, HexDigits, Pow16, HexPrefix;
    LastDigitsRead(Unsigned32(v), 4);
    Powers();
  }

  /** Two digits are read without sign: a value of the 8-bit channels comes back exactly if it is one of 0 .. 255. */
  lemma Print8Read(v: int16)
    ensures GetHexValue(Print8(v)) == v % 256
    ensures GetHexValue(Print8(v)) == v <==> 0 <= v < 256
  {
    hide HexNumber, HexDigits, Pow16, HexPrefix;
    LastDigitsRead(Unsigned32(Byte8(v)), 2);
    Powers();
  }

  /** A count is read back unless its text has four digits and the value does not fit a short. */
  lemma CountRead(n: nat)
    requires n < 0x8000_0000
    ensures GetHexValue(HexText(n)) == n <==> n < 0x8000 || n >= 0x1_0000
  {
    hide HexText, HexNumber, HexPrefix;
    TextRead(n);
    PrefixOfHex(HexText(n));
    TextLength(n);
  }

  lemma TextLength(n: nat)
    ensures |HexText(n)| <= 4 <==> n < 0x1_0000
  {
    if n >= 16 && n / 16 >= 16 {
      var m := n / 16 / 16;
      assert |HexText(n)| == |HexText(m)| + 2;
      if m >= 16 && m / 16 >= 16 {
        assert |HexText(m)| == |HexText(m / 16 / 16)| + 2;
      }
    }
  }

  // ---- rounding ----

  /** Conversion of a floating-point value to an integer, towards zero. */
  function Truncate(x: real): int {
    if x >= 0.0 then x.Floor else -((-x).Floor)
  }

  /** Steps of the given size, rounded half away from zero. */
  function Rounded(val: real, factor: real): int
    requires factor > 0.0
  {
    var steps := val / factor;
    Truncate(if steps > 0.0 then steps + 0.5 else steps - 0.5)
  }

  lemma RoundedSteps(steps: real)
    ensures var q := Truncate(if steps > 0.0 then steps + 0.5 else steps - 0.5) as real;
            -0.5 <= q - steps <= 0.5
  {
  }

  /** The rounded value times the step is off by at most half a step. */
  lemma RoundedWithinHalf(val: real, factor: real)
    requires factor > 0.0
    ensures var back := Rounded(val, factor) as real * factor;
            -0.5 * factor <= back - val <= 0.5 * factor
  {
    var steps := val / factor;
    assert steps * factor == val;
    hide Truncate;
    RoundedSteps(steps);
    HalfStep(Rounded(val, factor) as real, steps, factor, val);
  }

  function Times(a: real, b: real): real {
    a * b
  }

  lemma TimesPositive(a: real, b: real)
    requires a >= 0.0 && b > 0.0
    ensures Times(a, b) >= 0.0
  {
  }

  lemma HalfStep(q: real, steps: real, factor: real, val: real)
    requires factor > 0.0 && -0.5 <= q - steps <= 0.5 && steps * factor == val
    ensures -0.5 * factor <= q * factor - val <= 0.5 * factor
  {
    TimesPositive(q - steps + 0.5, factor);
    TimesPositive(0.5 - (q - steps), factor);
    assert Times(q - steps + 0.5, factor) == q * factor - val + 0.5 * factor;
    assert Times(0.5 - (q - steps), factor) == 0.5 * factor - (q * factor - val);
    hide Times;
  }

  // ---- tokens ----

  predicate IsToken(t: string) {
    t != "" && ' ' !in t
  }

  function WordEnd(s: string): (n: nat)
    ensures n <= |s|
  {
    if s == "" || s[0] == ' ' then 0 else 1 + WordEnd(s[1..])
  }

  /** The words between spaces, as strtok finds them. */
  function Tokens(s: string): seq<string>
    decreases |s|
  {
    if s == "" then []
    else if s[0] == ' ' then Tokens(s[1..])
    else [s[..WordEnd(s)]] + Tokens(s[WordEnd(s)..])
  }

  /** Tokens written one after the other, a space behind each. */
  function Spaced(ts: seq<string>): string {
    if ts == [] then "" else ts[0] + " " + Spaced(ts[1..])
  }

  lemma {:induction false} WordEndAt(t: string, rest: string)
    requires ' ' !in t
    ensures WordEnd(t + " " + rest) == |t|
  {
    if t != "" {
      assert (t + " " + rest)[1..] == t[1..] + " " + rest;
      WordEndAt(t[1..], rest);
    }
  }

  lemma FirstToken(t: string, rest: string)
    requires IsToken(t)
    ensures Tokens(t + " " + rest) == [t] + Tokens(rest)
  {
    var s := t + " " + rest;
    WordEndAt(t, rest);
    assert s[..|t|] == t && s[|t|..] == " " + rest && (" " + rest)[1..] == rest;
  }

  /** Tokens written with spaces are found again. */
  lemma {:induction false} SpacedTokens(ts: seq<string>, rest: string)
    requires forall i :: 0 <= i < |ts| ==> IsToken(ts[i])
    ensures Tokens(Spaced(ts) + rest) == ts + Tokens(rest)
  {
    if ts == [] {
      assert "" + rest == rest;
    } else {
      SpacedTokens(ts[1..], rest);
      FirstToken(ts[0], Spaced(ts[1..]) + rest);
      assert Spaced(ts) + rest == ts[0] + " " + (Spaced(ts[1..]) + rest);
      assert [ts[0]] + ts[1..] == ts;
    }
  }

  lemma {:induction false} SpacedConcat(a: seq<string>, b: seq<string>)
    ensures Spaced(a + b) == Spaced(a) + Spaced(b)
  {
    if a == [] {
      assert a + b == b;
    } else {
      SpacedConcat(a[1..], b);
      assert (a + b)[1..] == a[1..] + b;
    }
  }

  // ---- floating-point words ----

  /** Value of four bytes, the last one the most significant, as the host stores a word. */
  function HostWord(b: seq<nat>): nat
    requires |b| == 4
  {
    b[0] + 0x100 * b[1] + 0x1_0000 * b[2] + 0x100_0000 * b[3]
  }

  lemma EightDigits(s: string)
    requires |s| == 8 && AllHex(s)
    ensures HexNumber(s) == 0x100_0000 * HexNumber(s[0..2]) + 0x1_0000 * HexNumber(s[2..4])
                            + 0x100 * HexNumber(s[4..6]) + HexNumber(s[6..8])
    ensures HexNumber(s[0..2]) < 0x100 && HexNumber(s[2..4]) < 0x100 && HexNumber(s[4..6]) < 0x100
            && HexNumber(s[6..8]) < 0x100
  {
    hide HexNumber;
    TwoMore(s[..6], s[6..8]);
    TwoMore(s[..4], s[4..6]);
    TwoMore(s[..2], s[2..4]);
    TwoMore("", s[0..2]);
    assert s[..6] + s[6..8] == s && s[..4] + s[4..6] == s[..6] && s[..2] + s[2..4] == s[..4]
           && "" + s[0..2] == s[..2] == s[0..2];
  }

  lemma TwoMore(s: string, t: string)
    requires AllHex(s) && AllHex(t) && |t| == 2
    ensures AllHex(s + t) && HexNumber(s + t) == 0x100 * HexNumber(s) + HexNumber(t) && HexNumber(t) < 0x100
    ensures HexNumber("") == 0
  {
    var u := s + t;
    assert u[..|u| - 1] == s + [t[0]] && (s + [t[0]])[..|s|] == s;
    assert t[..1] == [t[0]] && [t[0]][..0] == "";
    assert HexNumber(u) == 16 * HexNumber(s + [t[0]]) + HexValue(t[1]);
    assert HexNumber(t) == 16 * HexNumber([t[0]]) + HexValue(t[1]);
  }

  /** The byte that two characters stand for. */
  function PairByte(str: string, i: nat): nat
    requires 2 * i + 2 <= |str|
  {
    GetHexValue(str[2 * i..2 * i + 2]) % 0x100
  }

  /** getFloatValue: eight digits set the four bytes of a float; a shorter text leaves it zero. */
  method GetFloatWord(str: string) returns (word: nat)
    ensures word == FloatWord(str)
  {
    var bytes := new nat[4](_ => 0);
    if |str| >= 8 {
      var i := 0;
      while i < 4
        invariant 0 <= i <= 4
        invariant forall k :: 0 <= k < i ==> bytes[3 - k] == PairByte(str, k)
      {
        var dummyStr := [str[i * 2]] + [str[i * 2 + 1]];
        assert dummyStr == str[2 * i..2 * i + 2];
        var val := GetHexValue(dummyStr);
        bytes[3 - i] := val % 0x100;
        i := i + 1;
      }
      assert bytes[0] == PairByte(str, 3) && bytes[1] == PairByte(str, 2) && bytes[2] == PairByte(str, 1)
             && bytes[3] == PairByte(str, 0);
    }
    word := HostWord(bytes[..]);
  }

  function FloatWord(str: string): nat {
    if |str| < 8 then 0 else HostWord([PairByte(str, 3), PairByte(str, 2), PairByte(str, 1), PairByte(str, 0)])
  }

  lemma TwoDigits(t: string)
    requires |t| == 2 && AllHex(t)
    ensures GetHexValue(t) == HexNumber(t) < 0x100
  {
    hide HexNumber, HexPrefix;
    PrefixOfHex(t);
    TwoMore("", t);
    assert "" + t == t;
  }

  /** Eight hexadecimal digits are the word of the float, most significant digit first. */
  lemma FloatWordIs(str: string)
    requires |str| == 8 && AllHex(str)
    ensures FloatWord(str) == HexNumber(str)
  {
    hide HexNumber, GetHexValue;
    EightDigits(str);
    TwoDigits(str[0..2]);
    TwoDigits(str[2..4]);
    TwoDigits(str[4..6]);
    TwoDigits(str[6..8]);
  }
}
