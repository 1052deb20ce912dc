/** The readers of a binary frame: answer check, length decoding before sending, payload view. */
module SopasReaders {
  import opened Bytes
  import opened ColaFraming
  import opened ColaStreams
  import opened ColaBStreams
  import opened SopasRequest

  /** A 32-bit pattern read as a signed number. */
  function ToInt32(n: nat): int
    requires n < UINT_RANGE
  {
    if n < INT_RANGE then n else n - UINT_RANGE
  }

  /** The first n bytes, most significant first, accumulated by shifting. */
  method BigEndianToUnsigned(vecArr: seq<byte>) returns (val: nat)
    requires |vecArr| == 4
    ensures val == Be(vecArr) && val < UINT_RANGE
  {
    val := 0;
    for i := 0 to 4
      invariant val == Be(vecArr[..i])
    {
      assert vecArr[..i + 1][..i] == vecArr[..i];
      val := 256 * val + vecArr[i];
    }
    assert vecArr[..4] == vecArr;
    BeBound(vecArr);
    assert Pow256(4) == UINT_RANGE;
  }

  /** Length of the payload if the length field describes the whole reply, else -1. */
  function AnswerLength(reply: seq<byte>): int {
    if |reply| >= OVERHEAD && MagicAt(reply, 0) && Be(reply[4..8]) == |reply| - OVERHEAD then |reply| - OVERHEAD else -1
  }

  /**
   The answer check. The comparison of the lengths is done in 32 bits and may wrap around, but a
   wrapped length is found only for a reply of 8 bytes, where the returned value is again -1.
   */
  method CheckForBinaryAnswer(reply: seq<byte>) returns (retVal: int)
    requires |reply| < INT_RANGE
    ensures retVal == AnswerLength(reply)
  {
    if |reply| < 8 {
      return -1;
    }
    assert reply[0..4] == [reply[0], reply[1], reply[2], reply[3]];
    BeFour(reply[0], reply[1], reply[2], reply[3]);
    var binId := BigEndianToUnsigned(reply[0..4]);
    var cmdLen := BigEndianToUnsigned(reply[4..8]);
    retVal := -1;
    if binId == 0x0202_0202 {
      if |reply| == (8 + cmdLen + 1) % UINT_RANGE {
        retVal := ToInt32(cmdLen);
      }
    }
  }

  /** Number of bytes handed to the socket: the frame length cut to 16 bits. */
  function SentBytes(request: seq<byte>): nat
    requires |request| >= 8
  {
    (8 + ToInt32(LengthField(request)) + 1) % UINT16_RANGE
  }

  function LengthField(request: seq<byte>): (n: nat)
    requires |request| >= 8
    ensures n < UINT_RANGE
  {
    BeBound(request[4..8]);
    assert Pow256(4) == UINT_RANGE;
    Be(request[4..8])
  }

  /** The length decoding of a binary command. */
  method MessageLength(request: seq<byte>) returns (len: nat)
    requires |request| >= 8
    ensures len == SentBytes(request)
  {
    var dataLen := 0;
    for i := 4 to 8
      invariant dataLen == Be(request[4..i]) * Pow256(8 - i)
    {
      assert request[4..i + 1][..i - 4] == request[4..i];
      assert Pow256(8 - i) == 256 * Pow256(7 - i);
      Distribute(Be(request[4..i]), request[i], Pow256(7 - i));
      dataLen := dataLen + request[i] * Pow256(7 - i);
    }
    ghost var n := LengthField(request);
    var msgLen := 8 + ToInt32(dataLen) + 1;
    len := msgLen % UINT16_RANGE;
  }

  lemma Distribute(a: nat, b: nat, p: nat)
    ensures (256 * a + b) * p == a * (256 * p) + b * p
  {
  }

  function PayloadLength(protocol: Protocol, frameLength: nat): int {
    match protocol
    case CoLaA => frameLength - 2
    case CoLaB => frameLength - OVERHEAD
  }

  /** The payload view of a queued frame. */
  function PayloadView(protocol: Protocol, frame: seq<byte>): seq<byte>
    requires ValidFrame(protocol, frame)
  {
    var start := if protocol == CoLaA then 1 else 8;
    frame[start..start + PayloadLength(protocol, |frame|)]
  }

  /** The frame is exactly the payload view between its markers. */
  lemma PayloadViewIsExact(protocol: Protocol, frame: seq<byte>)
    requires ValidFrame(protocol, frame)
    ensures var p := PayloadView(protocol, frame);
            match protocol
            case CoLaA => frame == [STX] + p + [ETX]
            case CoLaB => frame == FrameB(p)
  {
    if protocol == CoLaB {
      WellFormedIsFrameB(frame);
    }
  }

  /**
   One writer, many readers: for every payload and every fitting split of its frame into reads,
   the answer check returns the payload's length, the framer queues exactly that frame and keeps
   nothing, and the payload view returns the payload.
   */
  lemma ReadersAgree(capacity: nat, payload: seq<byte>, chunks: seq<seq<byte>>)
    requires |payload| + OVERHEAD <= UINT16_RANGE && |payload| + OVERHEAD <= capacity
    requires Fitting(CoLaB, capacity, chunks) && Concat(chunks) == FrameB(payload)
    ensures AnswerLength(FrameB(payload)) == |payload|
    ensures var r := ReadRun(CoLaB, capacity, Idle, chunks);
            Frames(r.log) == [FrameB(payload)] && r.buffer == [] && !r.spinning
    ensures ValidFrame(CoLaB, FrameB(payload)) && PayloadView(CoLaB, FrameB(payload)) == payload
  {
    FrameBWellFormed(payload);
    assert Join([FrameB(payload)]) == FrameB(payload) + Join([]);
    WholeStream(capacity, [FrameB(payload)], chunks);
  }

  /** The sender hands over exactly the frame if and only if its length fits 16 bits. */
  lemma SentExactly(payload: seq<byte>)
    requires |payload| + OVERHEAD < INT_RANGE
    ensures SentBytes(FrameB(payload)) == |FrameB(payload)| <==> |payload| + OVERHEAD < UINT16_RANGE
  {
    FrameBWellFormed(payload);
  }

  /** A payload of 65527 bytes makes a frame of 65536, of which nothing is sent. */
  lemma LongFrameNotSent(payload: seq<byte>)
    requires |payload| == 65527
    ensures |FrameB(payload)| == 65536 && SentBytes(FrameB(payload)) == 0
  {
    FrameBWellFormed(payload);
  }

  /** Two payloads never share a frame. */
  lemma FrameBInjective(p: seq<byte>, q: seq<byte>)
    requires |p| < UINT_RANGE && |q| < UINT_RANGE && FrameB(p) == FrameB(q)
    ensures p == q
  {
    FrameBWellFormed(p);
    FrameBWellFormed(q);
  }
}
