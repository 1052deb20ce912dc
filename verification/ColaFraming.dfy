/**
 What one read callback does to the receive buffer, as functions on byte strings:
 the search for one frame (CoLa-A: STX..ETX; CoLa-B: magic word, length, checksum),
 the loop that drains all frames, and the read step around it.
 Every byte that leaves the buffer is logged, either as part of a frame or as discarded.
 */
module ColaFraming {
  import opened Bytes

  const STX: byte := 0x02
  const ETX: byte := 0x03
  /** Frame bytes around a CoLa-B payload: magic word, length, checksum. */
  const OVERHEAD: nat := 9
  /** Number of values of the 16-bit position variables. */
  const UINT16_RANGE: nat := 0x1_0000

  datatype Protocol = CoLaA | CoLaB

  /** Spin: the checksum loop, whose counter has 16 bits, never reaches its bound. */
  datatype Found = NoFrame | Frame(len: nat) | Spin

  /** Outcome of one search: the number of leading bytes given up, and the frame now in front. */
  datatype Scan = Scan(drop: nat, found: Found)

  datatype Segment = Discarded(bytes: seq<byte>) | Emitted(bytes: seq<byte>)

  datatype Receiver = Receiver(log: seq<Segment>, buffer: seq<byte>, spinning: bool)

  // ---- the log ----

  function Flatten(log: seq<Segment>): seq<byte> {
    if log == [] then [] else Flatten(log[..|log| - 1]) + log[|log| - 1].bytes
  }

  /** The frames handed to the queue, in order. */
  function Frames(log: seq<Segment>): seq<seq<byte>> {
    if log == [] then []
    else Frames(log[..|log| - 1]) + (if log[|log| - 1].Emitted? then [log[|log| - 1].bytes] else [])
  }

  function Discard(bytes: seq<byte>): seq<Segment> {
    if bytes == [] then [] else [Discarded(bytes)]
  }

  lemma LogNone()
    ensures Flatten([]) == [] && Frames([]) == []
  {
  }

  lemma LogMore(log: seq<Segment>, s: Segment)
    ensures Flatten(log + [s]) == Flatten(log) + s.bytes
    ensures Frames(log + [s]) == Frames(log) + (if s.Emitted? then [s.bytes] else [])
  {
    assert (log + [s])[..|log|] == log;
  }

  lemma {:induction false} LogConcat(a: seq<Segment>, b: seq<Segment>)
    ensures Flatten(a + b) == Flatten(a) + Flatten(b)
    ensures Frames(a + b) == Frames(a) + Frames(b)
  {
    hide Flatten, Frames;
    if b == [] {
      LogNone();
      assert a + b == a;
    } else {
      var front, last := b[..|b| - 1], b[|b| - 1];
      LogConcat(a, front);
      LogMore(a + front, last);
      LogMore(front, last);
      assert front + [last] == b && a + front + [last] == a + b;
    }
  }

  lemma LogOne(s: Segment)
    ensures Flatten([s]) == s.bytes
    ensures Frames([s]) == if s.Emitted? then [s.bytes] else []
  {
    assert [s][..0] == [];
  }

  // ---- searching ----

  /** First index at or after i that holds b; the length if there is none. */
  function IndexFrom(buf: seq<byte>, b: byte, i: nat): (j: nat)
    requires i <= |buf|
    ensures i <= j <= |buf|
    decreases |buf| - i
  {
    if i == |buf| || buf[i] == b then i else IndexFrom(buf, b, i + 1)
  }

  lemma {:induction false} IndexFromIsFirst(buf: seq<byte>, b: byte, i: nat)
    requires i <= |buf|
    ensures var j := IndexFrom(buf, b, i);
            (j < |buf| ==> buf[j] == b) && forall k :: i <= k < j ==> buf[k] != b
    decreases |buf| - i
  {
    if i < |buf| && buf[i] != b {
      IndexFromIsFirst(buf, b, i + 1);
    }
  }

  lemma {:induction false} IndexFromUnique(buf: seq<byte>, b: byte, i: nat, j: nat)
    requires i <= j <= |buf|
    requires j < |buf| ==> buf[j] == b
    requires forall k :: i <= k < j ==> buf[k] != b
    ensures IndexFrom(buf, b, i) == j
    decreases j - i
  {
    if i < j {
      IndexFromUnique(buf, b, i + 1, j);
    }
  }

  predicate MagicAt(buf: seq<byte>, i: nat) {
    i + 4 <= |buf| && buf[i] == STX && buf[i + 1] == STX && buf[i + 2] == STX && buf[i + 3] == STX
  }

  /** First index with the magic word that a 16-bit position reaches; the length if there is none. */
  function MagicFrom(buf: seq<byte>, i: nat): (j: nat)
    requires i <= |buf|
    ensures i <= j <= |buf|
    decreases |buf| - i
  {
    if i + 4 > |buf| || i >= UINT16_RANGE then |buf|
    else if MagicAt(buf, i) then i
    else MagicFrom(buf, i + 1)
  }

  lemma {:induction false} MagicFromIsFirst(buf: seq<byte>, i: nat)
    requires i <= |buf|
    ensures var j := MagicFrom(buf, i);
            && (j < |buf| ==> j < UINT16_RANGE && MagicAt(buf, j))
            && forall k :: i <= k < j && k < UINT16_RANGE ==> !MagicAt(buf, k)
    decreases |buf| - i
  {
    if i + 4 <= |buf| && i < UINT16_RANGE && !MagicAt(buf, i) {
      MagicFromIsFirst(buf, i + 1);
    }
  }

  lemma {:induction false} MagicFromUnique(buf: seq<byte>, i: nat, j: nat)
    requires i <= j <= |buf|
    requires forall k :: i <= k < j && k < UINT16_RANGE ==> !MagicAt(buf, k)
    requires j < |buf| ==> j < UINT16_RANGE && MagicAt(buf, j)
    ensures MagicFrom(buf, i) == j
    decreases |buf| - i
  {
    if i < j && i + 4 <= |buf| && i < UINT16_RANGE {
      MagicFromUnique(buf, i + 1, j);
    }
  }

  function FindA(buf: seq<byte>): (s: Scan)
    ensures s.drop <= |buf|
    ensures !s.found.Spin?
    ensures s.found.Frame? ==> 2 <= s.found.len <= |buf| - s.drop
  {
    var start := IndexFrom(buf, STX, 0);
    if start == |buf| then Scan(start, NoFrame)
    else
      var end := IndexFrom(buf, ETX, start + 1);
      if end == |buf| then Scan(start, NoFrame) else Scan(start, Frame(end - start + 1))
  }

  /** The case distinction on a buffer that starts with the magic word. */
  function FindBAligned(capacity: nat, buf: seq<byte>): (s: Scan)
    requires capacity >= OVERHEAD
    ensures s.drop <= |buf|
    ensures s.found.Frame? ==> s.drop == 0 && OVERHEAD <= s.found.len <= |buf|
  {
    if |buf| < OVERHEAD then Scan(0, NoFrame)
    else
      var payloadLength := Be(buf[4..8]);
      if payloadLength > capacity - OVERHEAD then Scan(|buf|, NoFrame)
      else if payloadLength + OVERHEAD > |buf| then Scan(0, NoFrame)
      else if payloadLength + OVERHEAD > UINT16_RANGE then Scan(0, Spin)
      else if XorAll(buf[8..payloadLength + 8]) != buf[payloadLength + 8] then Scan(|buf|, NoFrame)
      else Scan(0, Frame(payloadLength + OVERHEAD))
  }

  function FindB(capacity: nat, buf: seq<byte>): (s: Scan)
    requires capacity >= OVERHEAD
    ensures s.drop <= |buf|
    ensures s.found.Frame? ==> OVERHEAD <= s.found.len <= |buf| - s.drop
  {
    if |buf| < 4 then Scan(0, NoFrame)
    else
      var start := MagicFrom(buf, 0);
      if start == |buf| then Scan(|buf|, NoFrame)
      else
        var s := FindBAligned(capacity, buf[start..]);
        Scan(start + s.drop, s.found)
  }

  function Find(protocol: Protocol, capacity: nat, buf: seq<byte>): (s: Scan)
    requires capacity >= OVERHEAD
    ensures s.drop <= |buf|
    ensures s.found.Frame? ==> 2 <= s.found.len <= |buf| - s.drop
  {
    match protocol
    case CoLaA => FindA(buf)
    case CoLaB => FindB(capacity, buf)
  }

  // ---- draining and reading ----

  /** The effect of the callback's loop on a buffer. */
  function Drain(protocol: Protocol, capacity: nat, buf: seq<byte>): (r: Receiver)
    requires capacity >= OVERHEAD
    ensures |r.buffer| <= |buf|
    decreases |buf|
  {
    var s := Find(protocol, capacity, buf);
    var dropped := Discard(buf[..s.drop]);
    var kept := buf[s.drop..];
    match s.found
    case NoFrame => Receiver(dropped, kept, false)
    case Spin => Receiver(dropped, kept, true)
    case Frame(len) =>
      var r := Drain(protocol, capacity, kept[len..]);
      Receiver(dropped + [Emitted(kept[..len])] + r.log, r.buffer, r.spinning)
  }

  lemma ConcatAssociates<T>(l: seq<T>, a: seq<T>, e: seq<T>, r: seq<T>)
    ensures l + (a + e + r) == l + a + e + r
  {
  }

  /** One round of the loop, run behind the log kept so far. */
  lemma DrainUnfolded(protocol: Protocol, capacity: nat, buf: seq<byte>, log: seq<Segment>, drop: nat, found: Found)
    requires capacity >= OVERHEAD
    requires Find(protocol, capacity, buf) == Scan(drop, found)
    ensures var d := Drain(protocol, capacity, buf);
            if found.Frame? then
              var r := Drain(protocol, capacity, buf[drop..][found.len..]);
              && log + d.log == log + Discard(buf[..drop]) + [Emitted(buf[drop..][..found.len])] + r.log
              && d.buffer == r.buffer && d.spinning == r.spinning
            else
              d == Receiver(Discard(buf[..drop]), buf[drop..], found.Spin?)
  {
    match found
    case Frame(len) =>
      var r := Drain(protocol, capacity, buf[drop..][len..]);
      ConcatAssociates(log, Discard(buf[..drop]), [Emitted(buf[drop..][..len])], r.log);
    case _ =>
  }

  /** The bytes of a read that the buffer takes: all that fit. */
  function Transferred(capacity: nat, buffered: nat, numOfBytes: nat): (t: nat)
    requires buffered <= capacity
    ensures t <= numOfBytes && buffered + t <= capacity
  {
    if capacity - buffered < numOfBytes then capacity - buffered else numOfBytes
  }

  /** One call of the read callback. A spinning callback never returns, so nothing follows it. */
  function ReadStep(protocol: Protocol, capacity: nat, st: Receiver, chunk: seq<byte>): (r: Receiver)
    requires capacity >= OVERHEAD && |st.buffer| <= capacity
    ensures |r.buffer| <= capacity
  {
    if st.spinning then st
    else
      var t := Transferred(capacity, |st.buffer|, |chunk|);
      if t == 0 then Receiver(st.log + Discard(st.buffer), [], false)
      else
        var d := Drain(protocol, capacity, st.buffer + chunk[..t]);
        Receiver(st.log + d.log, d.buffer, d.spinning)
  }

  /** A whole run: the callback is called once per chunk. */
  function ReadRun(protocol: Protocol, capacity: nat, st: Receiver, chunks: seq<seq<byte>>): (r: Receiver)
    requires capacity >= OVERHEAD && |st.buffer| <= capacity
    ensures |r.buffer| <= capacity
  {
    if chunks == [] then st
    else ReadStep(protocol, capacity, ReadRun(protocol, capacity, st, chunks[..|chunks| - 1]), chunks[|chunks| - 1])
  }

  /** The bytes the buffer accepted during a run. */
  function Accepted(protocol: Protocol, capacity: nat, st: Receiver, chunks: seq<seq<byte>>): seq<byte>
    requires capacity >= OVERHEAD && |st.buffer| <= capacity
  {
    if chunks == [] then []
    else
      var front := chunks[..|chunks| - 1];
      var before := ReadRun(protocol, capacity, st, front);
      var last := chunks[|chunks| - 1];
      Accepted(protocol, capacity, st, front)
      + (if before.spinning then [] else last[..Transferred(capacity, |before.buffer|, |last|)])
  }

  const Idle: Receiver := Receiver([], [], false)

  // ---- what a frame is ----

  ghost predicate ValidFrame(protocol: Protocol, f: seq<byte>) {
    match protocol
    case CoLaA =>
      |f| >= 2 && f[0] == STX && f[|f| - 1] == ETX && ETX !in f[..|f| - 1]
    case CoLaB =>
      WellFormedB(f) && |f| <= UINT16_RANGE
  }

  /** Magic word, length of the payload in four bytes, payload, XOR of the payload. */
  ghost predicate WellFormedB(f: seq<byte>) {
    && |f| >= OVERHEAD && MagicAt(f, 0)
    && Be(f[4..8]) == |f| - OVERHEAD && XorAll(f[8..|f| - 1]) == f[|f| - 1]
  }

  ghost predicate AllValid(protocol: Protocol, frames: seq<seq<byte>>) {
    forall i :: 0 <= i < |frames| ==> ValidFrame(protocol, frames[i])
  }

  /** What the receiver maintains about its log, its queue and the bytes it accepted. */
  ghost predicate Consistent(protocol: Protocol, log: seq<Segment>, queue: seq<seq<byte>>, accepted: seq<byte>,
                             buffer: seq<byte>) {
    queue == Frames(log) && accepted == Flatten(log) + buffer && AllValid(protocol, queue)
  }

  lemma FindSound(protocol: Protocol, capacity: nat, buf: seq<byte>)
    requires capacity >= OVERHEAD
    requires Find(protocol, capacity, buf).found.Frame?
    ensures var s := Find(protocol, capacity, buf);
            ValidFrame(protocol, buf[s.drop..][..s.found.len])
  {
    var s := Find(protocol, capacity, buf);
    var b := buf[s.drop..];
    var f := b[..s.found.len];
    match protocol
    case CoLaA =>
      IndexFromIsFirst(buf, STX, 0);
      IndexFromIsFirst(buf, ETX, s.drop + 1);
    case CoLaB =>
      MagicFromIsFirst(buf, 0);
      assert f[4..8] == b[4..8];
      assert f[8..|f| - 1] == b[8..|f| - 1];
  }

  /** The log of one drain round: what was skipped, the frame, and the log of the rest. */
  lemma RoundLog(skipped: seq<byte>, frame: seq<byte>, log: seq<Segment>)
    ensures var all := Discard(skipped) + [Emitted(frame)] + log;
            Flatten(all) == skipped + frame + Flatten(log) && Frames(all) == [frame] + Frames(log)
  {
    DiscardLog(skipped);
    LogOne(Emitted(frame));
    LogConcat(Discard(skipped), [Emitted(frame)]);
    LogConcat(Discard(skipped) + [Emitted(frame)], log);
  }

  lemma RoundConserves(buf: seq<byte>, i: nat, n: nat, log: seq<Segment>, rest: seq<byte>)
    requires i + n <= |buf|
    requires Flatten(log) + rest == buf[i..][n..]
    ensures Flatten(Discard(buf[..i]) + [Emitted(buf[i..][..n])] + log) + rest == buf
  {
    var skipped, frame := buf[..i], buf[i..][..n];
    RoundLog(skipped, frame, log);
    assert skipped + frame + Flatten(log) + rest == skipped + frame + (Flatten(log) + rest);
    assert skipped + frame + buf[i..][n..] == buf;
  }

  /** Nothing is lost, duplicated or reordered by the drain loop. */
  lemma {:induction false} DrainConserves(protocol: Protocol, capacity: nat, buf: seq<byte>)
    requires capacity >= OVERHEAD
    ensures Flatten(Drain(protocol, capacity, buf).log) + Drain(protocol, capacity, buf).buffer == buf
    decreases |buf|
  {
    match Find(protocol, capacity, buf)
    case Scan(drop, Frame(len)) =>
      var r := Drain(protocol, capacity, buf[drop..][len..]);
      DrainConserves(protocol, capacity, buf[drop..][len..]);
      RoundConserves(buf, drop, len, r.log, r.buffer);
    case Scan(drop, _) =>
      DiscardLog(buf[..drop]);
  }

  lemma AllValidAppend(protocol: Protocol, a: seq<seq<byte>>, b: seq<seq<byte>>)
    requires AllValid(protocol, a) && AllValid(protocol, b)
    ensures AllValid(protocol, a + b)
  {
  }

  lemma RoundValid(protocol: Protocol, skipped: seq<byte>, frame: seq<byte>, log: seq<Segment>)
    requires ValidFrame(protocol, frame) && AllValid(protocol, Frames(log))
    ensures AllValid(protocol, Frames(Discard(skipped) + [Emitted(frame)] + log))
  {
    RoundLog(skipped, frame, log);
    AllValidAppend(protocol, [frame], Frames(log));
  }

  lemma LogStep(log: seq<Segment>, more: seq<Segment>, rest: seq<byte>, input: seq<byte>)
    requires Flatten(more) + rest == input
    ensures Flatten(log + more) + rest == Flatten(log) + input
    ensures Frames(log + more) == Frames(log) + Frames(more)
  {
    LogConcat(log, more);
    assert Flatten(log) + Flatten(more) + rest == Flatten(log) + (Flatten(more) + rest);
  }

  lemma SkipKeeps(protocol: Protocol, log: seq<Segment>, queue: seq<seq<byte>>, accepted: seq<byte>, buf: seq<byte>,
                  drop: nat)
    requires drop <= |buf| && Consistent(protocol, log, queue, accepted, buf)
    ensures Consistent(protocol, log + Discard(buf[..drop]), queue, accepted, buf[drop..])
  {
    DiscardLog(buf[..drop]);
    LogStep(log, Discard(buf[..drop]), buf[drop..], buf);
  }

  lemma EmitKeeps(protocol: Protocol, log: seq<Segment>, queue: seq<seq<byte>>, accepted: seq<byte>, buf: seq<byte>,
                  len: nat)
    requires len <= |buf| && Consistent(protocol, log, queue, accepted, buf)
    requires ValidFrame(protocol, buf[..len])
    ensures Consistent(protocol, log + [Emitted(buf[..len])], queue + [buf[..len]], accepted, buf[len..])
  {
    LogOne(Emitted(buf[..len]));
    LogStep(log, [Emitted(buf[..len])], buf[len..], buf);
    AllValidAppend(protocol, queue, [buf[..len]]);
  }

  /** The drain loop emits valid frames only. */
  lemma {:induction false} DrainValid(protocol: Protocol, capacity: nat, buf: seq<byte>)
    requires capacity >= OVERHEAD
    ensures AllValid(protocol, Frames(Drain(protocol, capacity, buf).log))
    decreases |buf|
  {
    match Find(protocol, capacity, buf)
    case Scan(drop, Frame(len)) =>
      var rest := buf[drop..][len..];
      DrainValid(protocol, capacity, rest);
      FindSound(protocol, capacity, buf);
      RoundValid(protocol, buf[..drop], buf[drop..][..len], Drain(protocol, capacity, rest).log);
    case Scan(drop, _) =>
      DiscardLog(buf[..drop]);
  }

  lemma DiscardLog(bytes: seq<byte>)
    ensures Flatten(Discard(bytes)) == bytes && Frames(Discard(bytes)) == []
  {
    if bytes != [] {
      LogOne(Discarded(bytes));
    }
  }

  /** What one read adds to the log and the buffer. */
  lemma ReadStepLog(protocol: Protocol, capacity: nat, st: Receiver, chunk: seq<byte>)
    requires capacity >= OVERHEAD && |st.buffer| <= capacity
    requires !st.spinning
    ensures var r := ReadStep(protocol, capacity, st, chunk);
            var taken := chunk[..Transferred(capacity, |st.buffer|, |chunk|)];
            && Flatten(r.log) + r.buffer == Flatten(st.log) + (st.buffer + taken)
            && Frames(r.log) == Frames(st.log)
               + (if taken == [] then [] else Frames(Drain(protocol, capacity, st.buffer + taken).log))
  {
    var taken := chunk[..Transferred(capacity, |st.buffer|, |chunk|)];
    if taken == [] {
      DiscardLog(st.buffer);
      LogStep(st.log, Discard(st.buffer), [], st.buffer + taken);
    } else {
      var d := Drain(protocol, capacity, st.buffer + taken);
      DrainConserves(protocol, capacity, st.buffer + taken);
      LogStep(st.log, d.log, d.buffer, st.buffer + taken);
    }
  }

  lemma ReadStepValid(protocol: Protocol, capacity: nat, st: Receiver, chunk: seq<byte>)
    requires capacity >= OVERHEAD && |st.buffer| <= capacity
    requires !st.spinning && AllValid(protocol, Frames(st.log))
    ensures AllValid(protocol, Frames(ReadStep(protocol, capacity, st, chunk).log))
  {
    ReadStepLog(protocol, capacity, st, chunk);
    DrainValid(protocol, capacity, st.buffer + chunk[..Transferred(capacity, |st.buffer|, |chunk|)]);
  }

  lemma AcceptKeeps(protocol: Protocol, log: seq<Segment>, queue: seq<seq<byte>>, accepted: seq<byte>, buf: seq<byte>,
                    taken: seq<byte>)
    requires Consistent(protocol, log, queue, accepted, buf)
    ensures Consistent(protocol, log, queue, accepted + taken, buf + taken)
  {
    assert Flatten(log) + buf + taken == Flatten(log) + (buf + taken);
  }

  /**
   Over every run from the idle receiver, whatever the bytes and however they are split: the
   accepted stream is the logged segments followed by the buffer, so the queued frames are
   disjoint slices of it in increasing order, and every queued frame is valid.
   */
  lemma {:induction false} RunConserves(protocol: Protocol, capacity: nat, chunks: seq<seq<byte>>)
    requires capacity >= OVERHEAD
    ensures var r := ReadRun(protocol, capacity, Idle, chunks);
            && Flatten(r.log) + r.buffer == Accepted(protocol, capacity, Idle, chunks)
            && AllValid(protocol, Frames(r.log))
  {
    hide Drain, Frames, Flatten, Discard;
    LogNone();
    if chunks != [] {
      var front := chunks[..|chunks| - 1];
      RunConserves(protocol, capacity, front);
      var before := ReadRun(protocol, capacity, Idle, front);
      if !before.spinning {
        ReadStepLog(protocol, capacity, before, chunks[|chunks| - 1]);
        ReadStepValid(protocol, capacity, before, chunks[|chunks| - 1]);
      }
    }
  }

  /** The 16-bit counter of the checksum loop after n increments. */
  function Counter(n: nat): (c: nat)
    ensures c == (8 + n) % UINT16_RANGE
  {
    if n == 0 then 8 else if Counter(n - 1) + 1 == UINT16_RANGE then 0 else Counter(n - 1) + 1
  }

  /**
   The counter reaches the loop's bound frameLen - 1 exactly for frames of at most 65536 bytes;
   a longer frame makes the loop run forever.
   */
  lemma ChecksumLoopEnds(frameLen: nat)
    requires frameLen >= OVERHEAD
    ensures frameLen <= UINT16_RANGE <==> exists n: nat :: Counter(n) >= frameLen - 1
  {
    if frameLen <= UINT16_RANGE {
      assert Counter(frameLen - OVERHEAD) == frameLen - 1;
    }
  }
}
