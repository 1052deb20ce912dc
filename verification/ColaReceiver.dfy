/** The TCP receiver: a fixed receive buffer filled by the read callback and drained in place. */
module ColaReceiver {
  import opened Bytes
  import opened ColaFraming

  const MAGIC_WORD: nat := 0x0202_0202

  lemma MagicWordIsMagic(buf: seq<byte>, i: nat)
    requires i + 4 <= |buf|
    ensures Be(buf[i..i + 4]) == MAGIC_WORD <==> MagicAt(buf, i)
  {
    assert buf[i..i + 4] == [buf[i], buf[i + 1], buf[i + 2], buf[i + 3]];
    BeFour(buf[i], buf[i + 1], buf[i + 2], buf[i + 3]);
  }

  lemma PrefixSlice(a: array<byte>, n: nat, lo: nat, hi: nat)
    requires lo <= hi <= n <= a.Length
    ensures a[..n][lo..hi] == a[lo..hi]
  {
  }

  lemma WeightStep(i: nat)
    ensures Pow256(0) == 1 && Pow256(i + 1) == 256 * Pow256(i) && Be([]) == 0
  {
  }

  /** Integer of the given width at pos, accumulated from its last byte on. */
  method GetIntegerFromBuffer(buffer: array<byte>, pos: nat, width: nat) returns (intValue: nat)
    requires pos + width <= buffer.Length
    ensures intValue == Be(buffer[pos..pos + width])
  {
    hide Be, Pow256;
    WeightStep(0);
    assert buffer[pos + width..pos + width] == [];
    intValue := 0;
    var weight: nat := 1;
    var i := 0;
    while i < width
      invariant 0 <= i <= width
      invariant weight == Pow256(i)
      invariant intValue == Be(buffer[pos + width - i..pos + width])
    {
      ghost var tail := buffer[pos + width - i..pos + width];
      BeCons(buffer[pos + width - 1 - i], tail);
      assert buffer[pos + width - 1 - i..pos + width] == [buffer[pos + width - 1 - i]] + tail;
      WeightStep(i);
      intValue := intValue + buffer[pos + width - 1 - i] * weight;
      weight := 256 * weight;
      i := i + 1;
    }
  }

  class TcpReceiver {
    const protocol: Protocol
    const data: array<byte>
    var count: nat
    var recvQueue: seq<seq<byte>>
    /** The callback is caught in the endless checksum loop. */
    var spinning: bool
    ghost var log: seq<Segment>
    ghost var accepted: seq<byte>

    ghost predicate Valid()
      reads this, data
    {
      && OVERHEAD <= data.Length
      && count <= data.Length
      && Consistent(protocol, log, recvQueue, accepted, data[..count])
    }

    ghost function State(): Receiver
      requires count <= data.Length
      reads this, data
    {
      Receiver(log, data[..count], spinning)
    }

    constructor (protocol: Protocol, capacity: nat)
      requires capacity >= OVERHEAD
      ensures Valid() && State() == Idle && accepted == []
      ensures this.protocol == protocol && data.Length == capacity && fresh(data)
    {
      this.protocol := protocol;
      data := new byte[capacity](_ => 0);
      count, recvQueue, spinning := 0, [], false;
      log, accepted := [], [];
    }

    /** Gives up the first bytes of the buffer and moves the others to its start. */
    method DropFront(from: nat)
      requires count <= data.Length && from <= count
      modifies data, `count
      ensures count == old(count) - from
      ensures data[..count] == old(data[from..count])
    {
      var newLen := count - from;
      forall k | 0 <= k < newLen {
        data[k] := data[from + k];
      }
      count := newLen;
    }

    method FindFrameA() returns (found: Found)
      requires OVERHEAD <= data.Length && count <= data.Length
      modifies data, `count
      ensures count <= old(count)
      ensures var s := FindA(old(data[..count]));
              found == s.found && data[..count] == old(data[..count])[s.drop..]
    {
      ghost var buf := data[..count];
      if data[0] != STX {
        var i := 1;
        while i < count
          invariant 1 <= i && (i <= count || count == 0)
          invariant forall k :: 0 <= k < i && k < count ==> buf[k] != STX
        {
          if data[i] == STX {
            break;
          }
          i := i + 1;
        }
        if i >= count {
          IndexFromUnique(buf, STX, 0, |buf|);
          count := 0;
          return NoFrame;
        }
        IndexFromUnique(buf, STX, 0, i);
        DropFront(i);
      }
      ghost var start := IndexFrom(buf, STX, 0);
      assert data[..count] == buf[start..];
      assert forall k :: start <= k < |buf| ==> buf[k] == data[k - start];
      var i := 1;
      while i < count
        invariant 1 <= i && (i <= count || count == 0)
        invariant forall k :: 1 <= k < i && k < count ==> data[k] != ETX
      {
        if data[i] == ETX {
          break;
        }
        i := i + 1;
      }
      if i >= count {
        if count > 0 {
          IndexFromUnique(buf, ETX, start + 1, |buf|);
        }
        return NoFrame;
      }
      IndexFromUnique(buf, ETX, start + 1, start + i);
      return Frame(i + 1);
    }

    /** Looks for the magic word with a position of 16 bits; the buffer's length if there is none. */
    method FindMagicWord() returns (i: nat)
      requires 4 <= count <= data.Length
      ensures i == MagicFrom(data[..count], 0)
    {
      ghost var buf := data[..count];
      var magicWord := GetIntegerFromBuffer(data, 0, 4);
      PrefixSlice(data, count, 0, 4);
      MagicWordIsMagic(buf, 0);
      if magicWord == MAGIC_WORD {
        return 0;
      }
      i := 1;
      while i <= count - 4
        invariant 1 <= i <= count - 3
        invariant forall k :: 0 <= k < i ==> k < UINT16_RANGE ==> !MagicAt(buf, k)
      {
        var pos := i % UINT16_RANGE;
        magicWord := GetIntegerFromBuffer(data, pos, 4);
        PrefixSlice(data, count, pos, pos + 4);
        MagicWordIsMagic(buf, pos);
        if magicWord == MAGIC_WORD {
          break;
        }
        i := i + 1;
      }
      if i > count - 4 {
        i := count;
      }
      MagicFromUnique(buf, 0, i);
    }

    method FindFrameB() returns (found: Found)
      requires OVERHEAD <= data.Length && count <= data.Length
      modifies data, `count
      ensures count <= old(count)
      ensures var s := FindB(data.Length, old(data[..count]));
              found == s.found && data[..count] == old(data[..count])[s.drop..]
    {
      if count < 4 {
        return NoFrame;
      }
      var i := FindMagicWord();
      if i == count {
        count := 0;
        return NoFrame;
      }
      if i > 0 {
        DropFront(i);
      }
      assert data[..count] == old(data[..count])[i..];
      found := FindFrameAligned();
    }

    /** Checksum of bytes 8 .. frameLen - 2; the counter of 16 bits ends for these frame lengths. */
    method XorOfPayload(frameLen: nat) returns (tempXor: byte)
      requires OVERHEAD <= frameLen <= count <= data.Length && frameLen <= UINT16_RANGE
      ensures tempXor == XorAll(data[..count][8..frameLen - 1])
    {
      ghost var payload := data[..count][8..frameLen - 1];
      tempXor := 0;
      var j := 8;
      while j < frameLen - 1
        invariant 8 <= j <= frameLen - 1
        invariant tempXor == XorPrefix(payload, j - 8)
      {
        assert data[j] == payload[j - 8];
        tempXor := XorByte(tempXor, data[j]);
        j := (j + 1) % UINT16_RANGE;
      }
    }

    /** The checks on a buffer that starts with the magic word. */
    method FindFrameAligned() returns (found: Found)
      requires OVERHEAD <= data.Length && count <= data.Length
      modifies `count
      ensures count <= old(count)
      ensures var s := FindBAligned(data.Length, old(data[..count]));
              found == s.found && data[..count] == old(data[..count])[s.drop..]
    {
      ghost var buf := data[..count];
      if count < OVERHEAD {
        return NoFrame;
      }
      var payloadLength := GetIntegerFromBuffer(data, 4, 4);
      assert data[4..8] == buf[4..8];
      if payloadLength > data.Length - OVERHEAD {
        count := 0;
        return NoFrame;
      }
      if payloadLength + OVERHEAD > count {
        return NoFrame;
      }
      var frameLen := payloadLength + OVERHEAD;
      if frameLen > UINT16_RANGE {
        return Spin;
      }
      var checkSum := data[frameLen - 1];
      var tempXor := XorOfPayload(frameLen);
      if tempXor != checkSum {
        count := 0;
        return NoFrame;
      }
      return Frame(frameLen);
    }

    method FindFrameInReceiveBuffer() returns (found: Found, ghost drop: nat)
      requires OVERHEAD <= data.Length && count <= data.Length
      modifies data, `count
      ensures Scan(drop, found) == Find(protocol, data.Length, old(data[..count]))
      ensures count == old(count) - drop && data[..count] == old(data[..count])[drop..]
    {
      drop := Find(protocol, data.Length, data[..count]).drop;
      match protocol
      case CoLaA => found := FindFrameA();
      case CoLaB => found := FindFrameB();
    }
  
    /** Hands the first frameLen bytes of the buffer to the queue. */
    method ProcessFrame(frameLen: nat)
      requires frameLen <= count <= data.Length
      modifies `recvQueue
      ensures recvQueue == old(recvQueue) + [data[..frameLen]]
    {
      recvQueue := recvQueue + [data[..frameLen]];
    }

    /** One round of the callback's loop: search, then hand over and remove the frame found. */
    method DrainRound() returns (found: Found)
      requires Valid() && !spinning
      modifies data, `count, `recvQueue, `spinning, `log
      ensures Valid() && spinning == found.Spin?
      ensures var buf := old(data[..count]);
              var s := Find(protocol, data.Length, buf);
              && found == s.found
              && (if found.Frame? then
                    && log == old(log) + Discard(buf[..s.drop]) + [Emitted(buf[s.drop..][..found.len])]
                    && data[..count] == buf[s.drop..][found.len..]
                  else
                    && log == old(log) + Discard(buf[..s.drop])
                    && data[..count] == buf[s.drop..])
    {
      hide Find, Consistent, ValidFrame, Flatten, Frames, Discard;
      ghost var buf := data[..count];
      ghost var drop;
      found, drop := FindFrameInReceiveBuffer();
      ghost var kept := buf[drop..];
      SkipKeeps(protocol, log, recvQueue, accepted, buf, drop);
      log := log + Discard(buf[..drop]);
      match found
      case NoFrame =>
      case Spin =>
        spinning := true;
      case Frame(size) =>
        FindSound(protocol, data.Length, buf);
        EmitKeeps(protocol, log, recvQueue, accepted, kept, size);
        assert data[..size] == kept[..size];
        ProcessFrame(size);
        DropFront(size);
        assert data[..count] == kept[size..];
        log := log + [Emitted(kept[..size])];
    }

    /** The loop that works on the buffer until no complete frame is left. */
    method DrainBuffer()
      requires Valid() && !spinning
      modifies data, `count, `recvQueue, `spinning, `log
      ensures Valid()
      ensures var d := Drain(protocol, data.Length, old(data[..count]));
              State() == Receiver(old(log) + d.log, d.buffer, d.spinning)
    {
      ghost var goal := Drain(protocol, data.Length, data[..count]);
      ghost var log0 := log;
      ghost var d := goal;
      while true
        invariant Valid() && !spinning
        invariant d == Drain(protocol, data.Length, data[..count])
        invariant log0 + goal.log == log + d.log
        invariant goal.buffer == d.buffer && goal.spinning == d.spinning
        decreases count
      {
        ghost var buf, before := data[..count], log;
        ghost var drop := Find(protocol, data.Length, buf).drop;
        var found := DrainRound();
        DrainUnfolded(protocol, data.Length, buf, before, drop, found);
        if !found.Frame? {
          return;
        }
        d := Drain(protocol, data.Length, data[..count]);
      }
    }
  
    /** The read callback: take what fits, drain; clear the buffer when not a single byte was taken. */
    method ReadCallback(buffer: seq<byte>)
      requires Valid()
      modifies this, data
      ensures Valid()
      ensures State() == ReadStep(protocol, data.Length, old(State()), buffer)
      ensures accepted == old(accepted)
                          + (if old(spinning) then [] else buffer[..Transferred(data.Length, old(count), |buffer|)])
    {
      hide Drain, Consistent, Find;
      if spinning {
        return;
      }
      var remainingSpace := data.Length - count;
      var bytesToBeTransferred := |buffer|;
      if remainingSpace < |buffer| {
        bytesToBeTransferred := remainingSpace;
      }
      if bytesToBeTransferred > 0 {
        forall k | 0 <= k < bytesToBeTransferred {
          data[count + k] := buffer[k];
        }
        count := count + bytesToBeTransferred;
        ghost var taken := buffer[..bytesToBeTransferred];
        assert data[..count] == old(data[..count]) + taken;
        AcceptKeeps(protocol, log, recvQueue, accepted, old(data[..count]), taken);
        accepted := accepted + taken;
        DrainBuffer();
      } else {
        SkipKeeps(protocol, log, recvQueue, accepted, data[..count], count);
        assert data[..count][..count] == data[..count];
        log := log + Discard(data[..count]);
        count := 0;
      }
    }
  }
}
