/** Bytes, their big-endian and little-endian reading, and the XOR checksum shared by every codec. */
module Bytes {

  type byte = x: int | 0 <= x < 256

  /** Four STX bytes begin every binary SOPAS telegram. */
  const STX_WORD: seq<byte> := [2, 2, 2, 2]
  /** An int is below this. */
  const INT_RANGE: nat := 0x8000_0000

  function Pow2(n: nat): nat {
    if n == 0 then 1 else 2 * Pow2(n - 1)
  }

  /** Bitwise XOR of the n low bits. */
  function XorBits(a: nat, b: nat, n: nat): (r: nat)
    ensures r < Pow2(n)
  {
    if n == 0 then 0 else (a + b) % 2 + 2 * XorBits(a / 2, b / 2, n - 1)
  }

  function XorByte(a: byte, b: byte): byte {
    assert Pow2(8) == 256;
    XorBits(a, b, 8)
  }

  /** XOR of the first n bytes. */
  function XorPrefix(s: seq<byte>, n: nat): byte
    requires n <= |s|
  {
    if n == 0 then 0 else XorByte(XorPrefix(s, n - 1), s[n - 1])
  }

  function XorAll(s: seq<byte>): byte {
    XorPrefix(s, |s|)
  }

  // ---- what the checksum stands for ----

  /** Bit k of a number. */
  function Bit(n: nat, k: nat): nat {
    if k == 0 then n % 2 else Bit(n / 2, k - 1)
  }

  lemma {:induction false} XorBit(a: nat, b: nat, n: nat, k: nat)
    requires k < n
    ensures Bit(XorBits(a, b, n), k) == if Bit(a, k) == Bit(b, k) then 0 else 1
  {
    Parity(a, b);
    LowBit((a + b) % 2, XorBits(a / 2, b / 2, n - 1));
    if k > 0 {
      XorBit(a / 2, b / 2, n - 1, k - 1);
    }
  }

  lemma Parity(a: nat, b: nat)
    ensures (a + b) % 2 == if a % 2 == b % 2 then 0 else 1
  {
  }

  lemma LowBit(c: nat, x: nat)
    requires c < 2
    ensures (c + 2 * x) % 2 == c && (c + 2 * x) / 2 == x
  {
  }

  /** How many bytes have bit k set. */
  function Ones(s: seq<byte>, k: nat): nat {
    if s == [] then 0 else Ones(s[..|s| - 1], k) + Bit(s[|s| - 1], k)
  }

  lemma {:induction false} BitIsBit(n: nat, k: nat)
    ensures Bit(n, k) < 2
  {
    if k > 0 {
      BitIsBit(n / 2, k - 1);
    }
  }

  lemma {:induction false} PrefixParity(s: seq<byte>, n: nat, k: nat)
    requires n <= |s| && k < 8
    ensures Bit(XorPrefix(s, n), k) == Ones(s[..n], k) % 2
    decreases n
  {
    hide XorBits, Bit;
    if n > 0 {
      PrefixParity(s, n - 1, k);
      assert s[..n][..n - 1] == s[..n - 1];
      XorBit(XorPrefix(s, n - 1), s[n - 1], 8, k);
      BitIsBit(s[n - 1], k);
    } else {
      ZeroBit(k);
    }
  }

  lemma {:induction false} ZeroBit(k: nat)
    ensures Bit(0, k) == 0
  {
    if k > 0 {
      ZeroBit(k - 1);
    }
  }

  /** Each bit of the checksum is the parity of that bit over all bytes. */
  lemma ChecksumParity(s: seq<byte>, k: nat)
    requires k < 8
    ensures Bit(XorAll(s), k) == Ones(s, k) % 2
  {
    hide XorPrefix, Ones, Bit;
    PrefixParity(s, |s|, k);
    assert s[..|s|] == s;
  }

  lemma {:induction false} SomeBitDiffers(a: nat, b: nat, n: nat) returns (k: nat)
    requires a != b && a < Pow2(n) && b < Pow2(n)
    ensures k < n && Bit(a, k) != Bit(b, k)
  {
    if a % 2 != b % 2 {
      k := 0;
    } else {
      k := SomeBitDiffers(a / 2, b / 2, n - 1);
      k := k + 1;
    }
  }

  lemma {:induction false} OnesChanged(s: seq<byte>, j: nat, b: byte, k: nat)
    requires j < |s|
    ensures Ones(s[j := b], k) == Ones(s, k) - Bit(s[j], k) + Bit(b, k)
  {
    hide Bit;
    var front, t := s[..|s| - 1], s[j := b];
    if j < |front| {
      OnesChanged(front, j, b, k);
      assert t[..|t| - 1] == front[j := b];
    } else {
      assert t[..|t| - 1] == front;
    }
  }

  /** A change of one byte always changes the checksum. */
  lemma OneByteSeen(s: seq<byte>, j: nat, b: byte)
    requires j < |s| && s[j] != b
    ensures XorAll(s[j := b]) != XorAll(s)
  {
    assert Pow2(8) == 256;
    hide Bit, Ones, XorAll;
    var k := SomeBitDiffers(s[j], b, 8);
    ChecksumParity(s, k);
    ChecksumParity(s[j := b], k);
    OnesChanged(s, j, b, k);
    BitIsBit(b, k);
    BitIsBit(s[j], k);
  }

  function Pow256(w: nat): nat {
    if w == 0 then 1 else 256 * Pow256(w - 1)
  }

  /** Value of a byte string whose first byte is the most significant one. */
  function Be(s: seq<byte>): nat {
    if s == [] then 0 else 256 * Be(s[..|s| - 1]) + s[|s| - 1]
  }

  /** Value of a byte string whose first byte is the least significant one (the host's layout). */
  function Le(s: seq<byte>): nat {
    if s == [] then 0 else s[0] + 256 * Le(s[1..])
  }

  /** The w low bytes of n, most significant first. */
  function ToBe(n: nat, w: nat): (s: seq<byte>)
    ensures |s| == w
  {
    if w == 0 then [] else ToBe(n / 256, w - 1) + [n % 256]
  }

  /** The w low bytes of n, least significant first. */
  function ToLe(n: nat, w: nat): (s: seq<byte>)
    ensures |s| == w
  {
    if w == 0 then [] else [n % 256] + ToLe(n / 256, w - 1)
  }

  function Reversed(s: seq<byte>): (r: seq<byte>)
    ensures |r| == |s|
  {
    if s == [] then [] else Reversed(s[1..]) + [s[0]]
  }

  lemma {:induction false} ReversedAt(s: seq<byte>, k: nat)
    requires k < |s|
    ensures Reversed(s)[k] == s[|s| - 1 - k]
  {
    if k < |s| - 1 {
      ReversedAt(s[1..], k);
    }
  }

  lemma {:induction false} BeBound(s: seq<byte>)
    ensures Be(s) < Pow256(|s|)
  {
    if s != [] {
      BeBound(s[..|s| - 1]);
    }
  }

  lemma {:induction false} BeToBe(n: nat, w: nat)
    requires n < Pow256(w)
    ensures Be(ToBe(n, w)) == n
  {
    if w > 0 {
      BeToBe(n / 256, w - 1);
      assert ToBe(n, w)[..w - 1] == ToBe(n / 256, w - 1);
    }
  }

  lemma {:induction false} ToBeBe(s: seq<byte>)
    ensures ToBe(Be(s), |s|) == s
  {
    if s != [] {
      ToBeBe(s[..|s| - 1]);
      assert Be(s) / 256 == Be(s[..|s| - 1]);
    }
  }

  lemma {:induction false} BeCons(b: byte, s: seq<byte>)
    ensures Be([b] + s) == b * Pow256(|s|) + Be(s)
  {
    if s != [] {
      var front, last := s[..|s| - 1], s[|s| - 1];
      BeCons(b, front);
      assert ([b] + s)[..|s|] == [b] + front;
      assert 256 * (b * Pow256(|front|)) == b * Pow256(|s|);
    } else {
      assert ([b] + s)[..0] == [];
    }
  }

  lemma BeFour(a: byte, b: byte, c: byte, d: byte)
    ensures Be([a, b, c, d]) == 0x100_0000 * a + 0x1_0000 * b + 0x100 * c + d
  {
    assert Be([a]) == a;
    assert [a, b][..1] == [a];
    assert Be([a, b]) == 256 * a + b;
    assert [a, b, c][..2] == [a, b];
    assert Be([a, b, c]) == 256 * (256 * a + b) + c;
    assert [a, b, c, d][..3] == [a, b, c];
  }

  lemma ToBeMore(n: nat, w: nat)
    requires w > 0
    ensures ToBe(n, w) == ToBe(n / 256, w - 1) + [n % 256]
  {
  }

  lemma ToBeFour(n: nat)
    ensures ToBe(n, 4) == [n / 0x100_0000 % 256, n / 0x1_0000 % 256, n / 0x100 % 256, n % 256]
  {
    var a, b, c := n / 0x100, n / 0x1_0000, n / 0x100_0000;
    assert a / 256 == b && b / 256 == c;
    ToBeMore(c, 1);
    ToBeMore(b, 2);
    ToBeMore(a, 3);
    ToBeMore(n, 4);
    assert ToBe(c / 256, 0) == [];
    hide ToBe;
  }

  /** Reversing the host layout of a value gives its big-endian layout. */
  lemma {:induction false} ReversedToLe(n: nat, w: nat)
    ensures Reversed(ToLe(n, w)) == ToBe(n, w)
  {
    if w > 0 {
      ReversedToLe(n / 256, w - 1);
      assert ToLe(n, w)[1..] == ToLe(n / 256, w - 1);
    }
  }

  /** Reversing bytes read from the wire lets the host read their big-endian value. */
  lemma {:induction false} LeReversed(s: seq<byte>)
    ensures Le(Reversed(s)) == Be(s)
  {
    if s != [] {
      var front, last := s[..|s| - 1], s[|s| - 1];
      LeReversed(front);
      forall k | 0 <= k < |s|
        ensures Reversed(s)[k] == ([last] + Reversed(front))[k]
      {
        ReversedAt(s, k);
        if k > 0 {
          ReversedAt(front, k - 1);
        }
      }
      assert Reversed(s) == [last] + Reversed(front);
    }
  }

  /** In-place reversal of the bytes of a value, as swap_endian does. */
  method SwapEndian(buf: array<byte>)
    modifies buf
    ensures buf[..] == Reversed(old(buf[..]))
  {
    hide *;
    var numBytes := buf.Length;
    ghost var was := buf[..];
    ghost var mirrored := Reversed(was);
    var i := 0;
    while i < numBytes / 2
      invariant 0 <= i <= numBytes / 2
      invariant forall k :: 0 <= k < i ==> buf[k] == mirrored[k]
      invariant forall k :: i <= k < numBytes - i ==> buf[k] == was[k]
      invariant forall k :: numBytes - i <= k < numBytes ==> buf[k] == mirrored[k]
    {
      var tmpChar := buf[numBytes - 1 - i];
      buf[numBytes - 1 - i] := buf[i];
      buf[i] := tmpChar;
      ReversedAt(was, i);
      ReversedAt(was, numBytes - 1 - i);
      i := i + 1;
    }
    if numBytes % 2 == 1 {
      ReversedAt(was, i);
    }
  }
}
