/** The writer of binary SOPAS requests, and every reader of the frame it writes. */
module SopasRequest {
  import opened Bytes
  import opened ColaFraming
  import opened ColaStreams
  import opened ColaBStreams

  const SPACE: byte := 0x20
  /** The ASCII text of a command is copied up to this space. */
  const COPY_UNTIL_SPACE_CNT: nat := 2
  const UINT_RANGE: nat := 0x1_0000_0000

  /** Magic word, big-endian payload length, payload, XOR of the payload. */
  function FrameB(payload: seq<byte>): (f: seq<byte>)
    ensures |f| == |payload| + OVERHEAD
  {
    STX_WORD + ToBe(|payload|, 4) + payload + [XorAll(payload)]
  }

  lemma FrameBWellFormed(payload: seq<byte>)
    requires |payload| < UINT_RANGE
    ensures WellFormedB(FrameB(payload)) && FrameB(payload)[8..|payload| + 8] == payload
    ensures FrameB(payload)[4..8] == ToBe(|payload|, 4)
  {
    assert Pow256(4) == UINT_RANGE;
    BeToBe(|payload|, 4);
    FrameSlices(ToBe(|payload|, 4), payload, XorAll(payload));
  }

  lemma FrameSlices(length: seq<byte>, payload: seq<byte>, crc: byte)
    requires |length| == 4
    ensures var f := STX_WORD + length + payload + [crc];
            && MagicAt(f, 0) && f[4..8] == length && f[8..|payload| + 8] == payload && f[|payload| + 8] == crc
  {
  }

  /** The writer reaches every well-formed frame: it is the frame of its own payload. */
  lemma WellFormedIsFrameB(f: seq<byte>)
    requires WellFormedB(f)
    ensures f == FrameB(f[8..|f| - 1])
  {
    ToBeBe(f[4..8]);
    assert f[..4] == STX_WORD;
    assert f == f[..4] + f[4..8] + f[8..|f| - 1] + [f[|f| - 1]];
  }

  // ---- the generic copy path of the ASCII to binary conversion ----

  /** The number of leading bytes up to and including the n-th space; all bytes if there are fewer. */
  function HeadLength(msg: seq<byte>, n: nat): (h: nat)
    ensures h <= |msg|
  {
    if msg == [] || n == 0 then 0
    else 1 + HeadLength(msg[1..], if msg[0] == SPACE then n - 1 else n)
  }

  function DigitValue(c: byte): byte {
    if 0x30 <= c <= 0x39 then c - 0x30 else c
  }

  function Digits(s: seq<byte>): seq<byte> {
    seq(|s|, i requires 0 <= i < |s| => DigitValue(s[i]))
  }

  /** Command and name as they are, then the packed arguments, or single digits as their values. */
  function Converted(msg: seq<byte>, args: seq<byte>): seq<byte> {
    var h := HeadLength(msg, COPY_UNTIL_SPACE_CNT);
    msg[..h] + (if args == [] then Digits(msg[h..]) else args)
  }

  predicate FramedAscii(requestAscii: seq<byte>) {
    requestAscii != [] && requestAscii[0] == STX && requestAscii[|requestAscii| - 1] == ETX
  }

  /** Spaces among the first n bytes. */
  function SpacesBefore(s: seq<byte>, n: nat): nat
    requires n <= |s|
  {
    if n == 0 then 0 else SpacesBefore(s, n - 1) + if s[n - 1] == SPACE then 1 else 0
  }

  lemma {:induction false} SpacesBehindFirst(s: seq<byte>, n: nat)
    requires 0 < n <= |s|
    ensures SpacesBefore(s, n) == (if s[0] == SPACE then 1 else 0) + SpacesBefore(s[1..], n - 1)
  {
    if n > 1 {
      SpacesBehindFirst(s, n - 1);
    }
  }

  /** Byte i belongs to the head exactly while fewer than n spaces precede it. */
  lemma {:induction false} HeadBySpaces(msg: seq<byte>, n: nat, i: nat)
    requires i < |msg|
    ensures i < HeadLength(msg, n) <==> SpacesBefore(msg, i) < n
  {
    if n > 0 && i > 0 {
      SpacesBehindFirst(msg, i);
      HeadBySpaces(msg[1..], if msg[0] == SPACE then n - 1 else n, i - 1);
    }
  }

  /**
   The payload byte by byte: up to and including the second space the text itself; behind it the packed arguments, or,
   where a command has none, the text with every digit replaced by its number.
   */
  lemma ConvertedBytes(msg: seq<byte>, args: seq<byte>, i: nat)
    requires i < |msg|
    ensures SpacesBefore(msg, i) < 2 ==> i < |Converted(msg, args)| && Converted(msg, args)[i] == msg[i]
    ensures args == [] ==> |Converted(msg, args)| == |msg|
    ensures args == [] && SpacesBefore(msg, i) >= 2 ==>
              Converted(msg, args)[i] == if '0' as int <= msg[i] <= '9' as int then msg[i] - '0' as int else msg[i]
    ensures args != [] ==>
              && |args| <= |Converted(msg, args)| && args == Converted(msg, args)[|Converted(msg, args)| - |args|..]
              && (SpacesBefore(msg, i) < 2 <==> i < |Converted(msg, args)| - |args|)
  {
    HeadBySpaces(msg, 2, i);
  }

  method Crc8(msgBlock: seq<byte>) returns (xorVal: byte)
    ensures xorVal == XorAll(msgBlock)
  {
    xorVal := 0;
    for i := 0 to |msgBlock|
      invariant xorVal == XorPrefix(msgBlock, i)
    {
      xorVal := XorByte(xorVal, msgBlock[i]);
    }
  }

  lemma LengthByte(msgLen: nat, i: nat)
    requires i < 4
    ensures Pow256(3 - i) > 0 && ToBe(msgLen, 4)[i] == msgLen / Pow256(3 - i) % 256
  {
    assert Pow256(3) == 0x100_0000 && Pow256(2) == 0x1_0000 && Pow256(1) == 0x100;
    ToBeFour(msgLen);
  }

  class RequestBuffer {
    var bytes: seq<byte>

    constructor ()
      ensures bytes == []
    {
      bytes := [];
    }

    /** Fills in the length field and appends the checksum. */
    method SetLengthAndCrc()
      requires 8 <= |bytes| < INT_RANGE + 8
      modifies this
      ensures old(bytes[..4]) == STX_WORD ==> bytes == FrameB(old(bytes[8..]))
    {
      ghost var magic, payload := bytes[..4], bytes[8..];
      var msgLen := |bytes| - 8;
      hide ToBe, Pow256, XorAll;
      var i := 0;
      while i < 4
        invariant 0 <= i <= 4
        invariant |bytes| == msgLen + 8 && bytes[..4] == magic && bytes[8..] == payload
        invariant forall k :: 4 <= k < 4 + i ==> bytes[k] == ToBe(msgLen, 4)[k - 4]
      {
        LengthByte(msgLen, i);
        bytes := bytes[4 + i := msgLen / Pow256(3 - i) % 256];
        i := i + 1;
      }
      var xorVal := Crc8(bytes[8..]);
      assert bytes == magic + ToBe(msgLen, 4) + payload;
      bytes := bytes + [xorVal];
    }

    /** Converts a command STX .. ETX; args holds the bytes a keyword's own packing produced. */
    method ConvertAscii2BinaryCmd(requestAscii: seq<byte>, args: seq<byte>) returns (result: int)
      requires |requestAscii| + |args| < INT_RANGE
      modifies this
      ensures result == if FramedAscii(requestAscii) then 0 else -1
      ensures result == 0 ==> bytes == FrameB(Converted(requestAscii[1..|requestAscii| - 1], args))
      ensures result == -1 ==> bytes == []
    {
      hide FrameB, HeadLength, CopiedPart, Converted;
      bytes := [];
      var cmdLen := |requestAscii|;
      if cmdLen == 0 {
        return -1;
      }
      if requestAscii[0] != STX {
        return -1;
      }
      if requestAscii[cmdLen - 1] != ETX {
        return -1;
      }
      bytes := [STX, STX, STX, STX] + [0, 0, 0, 0];
      CopyBaseCommand(requestAscii, |args|);
      bytes := bytes + args;
      ghost var msg := requestAscii[1..cmdLen - 1];
      CopiedAll(msg, HeadLength(msg, COPY_UNTIL_SPACE_CNT), args);
      assert bytes[..4] == STX_WORD;
      assert bytes[8..] == Converted(msg, args);
      SetLengthAndCrc();
      return 0;
    }

    /** Appends the text between STX and ETX; digits behind the head become values if no packed bytes follow. */
    method CopyBaseCommand(requestAscii: seq<byte>, bufferLen: nat)
      requires |requestAscii| >= 2
      modifies this
      ensures var msg := requestAscii[1..|requestAscii| - 1];
              var h := HeadLength(msg, COPY_UNTIL_SPACE_CNT);
              bytes == old(bytes) + CopiedPart(msg, h, if bufferLen == 0 then |msg| else h)
    {
      var msgLen := |requestAscii| - 2;
      ghost var msg, before := requestAscii[1..|requestAscii| - 1], bytes;
      ghost var h := HeadLength(msg, COPY_UNTIL_SPACE_CNT);
      var switchDoBinaryData, spaceCnt := false, 0;
      var i := 1;
      while i <= msgLen
        invariant 1 <= i <= msgLen + 1
        invariant bufferLen > 0 ==> i - 1 <= h
        invariant spaceCnt == SpacesBefore(msg, i - 1)
        invariant switchDoBinaryData == (spaceCnt >= COPY_UNTIL_SPACE_CNT)
        invariant bytes == before + CopiedPart(msg, h, i - 1)
      {
        var c := requestAscii[i];
        HeadBySpaces(msg, COPY_UNTIL_SPACE_CNT, i - 1);
        if switchDoBinaryData {
          if bufferLen == 0 {
            if 0x30 <= c <= 0x39 {
              c := c - 0x30;
            }
          } else {
            break;
          }
        }
        CopiedMore(before, msg, h, i - 1);
        bytes := bytes + [c];
        if requestAscii[i] == SPACE {
          spaceCnt := spaceCnt + 1;
          if spaceCnt >= COPY_UNTIL_SPACE_CNT {
            switchDoBinaryData := true;
          }
        }
        i := i + 1;
      }
    }
  }

  /** The first n bytes, those behind the head with digits replaced. */
  function CopiedPart(msg: seq<byte>, h: nat, n: nat): seq<byte>
    requires h <= |msg| && n <= |msg|
  {
    if n <= h then msg[..n] else msg[..h] + Digits(msg[h..n])
  }

  lemma CopiedMore(before: seq<byte>, msg: seq<byte>, h: nat, n: nat)
    requires h <= |msg| && n < |msg|
    ensures before + CopiedPart(msg, h, n + 1)
            == before + CopiedPart(msg, h, n) + [if n < h then msg[n] else DigitValue(msg[n])]
  {
    if n < h {
      assert msg[..n + 1] == msg[..n] + [msg[n]];
    } else {
      assert Digits(msg[h..n + 1]) == Digits(msg[h..n]) + [DigitValue(msg[n])];
      assert n > h || (Digits(msg[h..n]) == [] && msg[..n] == msg[..h] + []);
    }
  }

  lemma CopiedAll(msg: seq<byte>, h: nat, args: seq<byte>)
    requires h == HeadLength(msg, COPY_UNTIL_SPACE_CNT)
    ensures CopiedPart(msg, h, if args == [] then |msg| else h) + args == Converted(msg, args)
    ensures |Converted(msg, args)| <= |msg| + |args|
  {
    assert msg[h..|msg|] == msg[h..];
    if args == [] && |msg| == h {
      assert msg[..h] == msg && Digits(msg[h..]) == [];
    }
  }
}
