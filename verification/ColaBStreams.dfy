/** CoLa-B streams: frames are reassembled from any split; what becomes of long frames and of garbage. */
module ColaBStreams {
  import opened Bytes
  import opened ColaFraming
  import opened ColaStreams

  /** Bytes per read of the TCP reader. */
  const MAX_READ: nat := 8192
  /** Size of the receive buffer. */
  const BUFFER_SIZE: nat := 480000

  function Join(frames: seq<seq<byte>>): seq<byte> {
    if frames == [] then [] else frames[0] + Join(frames[1..])
  }

  ghost predicate Deliverable(capacity: nat, frame: seq<byte>) {
    ValidFrame(CoLaB, frame) && |frame| <= capacity
  }

  ghost predicate AllDeliverable(capacity: nat, frames: seq<seq<byte>>) {
    forall i :: 0 <= i < |frames| ==> Deliverable(capacity, frames[i])
  }

  /**
   The shortest bytes that start with the magic word and make the receiver give up: nine bytes with a length beyond its
   buffer, or a whole frame whose last byte is not the XOR of its payload.
   */
  ghost predicate Rejected(capacity: nat, bad: seq<byte>) {
    && |bad| >= OVERHEAD && MagicAt(bad, 0)
    && if Be(bad[4..8]) + OVERHEAD > capacity then |bad| == OVERHEAD
       else
         && Be(bad[4..8]) == |bad| - OVERHEAD && |bad| <= UINT16_RANGE
         && XorAll(bad[8..|bad| - 1]) != bad[|bad| - 1]
  }

  /**
   Of the frames that arrive with the first n bytes all are deliverable, but for a last one that is not complete yet.
   */
  ghost predicate Arriving(capacity: nat, frames: seq<seq<byte>>, n: nat) {
    forall i :: 0 <= i < |frames| ==>
      || Deliverable(capacity, frames[i])
      || (i == |frames| - 1 && n < |Join(frames)| && Rejected(capacity, frames[i]))
  }

  lemma AllArrive(capacity: nat, frames: seq<seq<byte>>, n: nat)
    requires AllDeliverable(capacity, frames)
    ensures Arriving(capacity, frames, n)
  {
    hide Deliverable;
  }

  /** The number of frames complete within the first n bytes of the stream. */
  function Complete(frames: seq<seq<byte>>, n: nat): (k: nat)
    ensures k <= |frames|
  {
    if frames == [] || n < |frames[0]| then 0 else 1 + Complete(frames[1..], n - |frames[0]|)
  }

  /** The bytes of the frame begun but not complete within the first n bytes of the stream. */
  function Unfinished(frames: seq<seq<byte>>, n: nat): (r: seq<byte>)
    ensures |r| <= n
  {
    if frames == [] then []
    else if n < |frames[0]| then frames[0][..n]
    else Unfinished(frames[1..], n - |frames[0]|)
  }

  // ---- one frame, or a part of it, in front of the buffer ----

  lemma FindWholeFrame(capacity: nat, f: seq<byte>, rest: seq<byte>)
    requires capacity >= OVERHEAD && Deliverable(capacity, f)
    ensures FindB(capacity, f + rest) == Scan(0, Frame(|f|))
  {
    var buf := f + rest;
    MagicFromUnique(buf, 0, 0);
    assert buf[0..] == buf;
    assert buf[4..8] == f[4..8];
    assert buf[8..|f| - 1] == f[8..|f| - 1];
  }

  lemma FindLongFrame(capacity: nat, f: seq<byte>)
    requires capacity >= OVERHEAD && WellFormedB(f) && UINT16_RANGE < |f| <= capacity
    ensures FindB(capacity, f) == Scan(0, Spin)
  {
    MagicFromUnique(f, 0, 0);
    assert f[0..] == f;
  }

  /** A frame whose end the receiver waits for; the length counts only behind the ninth byte. */
  ghost predicate Awaited(capacity: nat, f: seq<byte>) {
    && |f| >= OVERHEAD && MagicAt(f, 0)
    && (|f| > OVERHEAD ==> Be(f[4..8]) + OVERHEAD == |f| <= capacity)
  }

  lemma FindPartOfFrame(capacity: nat, f: seq<byte>, n: nat)
    requires capacity >= OVERHEAD && Awaited(capacity, f) && n < |f|
    ensures FindB(capacity, f[..n]) == Scan(0, NoFrame)
  {
    var part := f[..n];
    if n >= 4 {
      assert MagicAt(part, 0);
      MagicFromUnique(part, 0, 0);
      assert part[0..] == part;
      if n >= OVERHEAD {
        assert part[4..8] == f[4..8];
      }
    }
  }

  lemma DrainWholeFrame(capacity: nat, f: seq<byte>, rest: seq<byte>)
    requires capacity >= OVERHEAD && Deliverable(capacity, f)
    ensures var r := Drain(CoLaB, capacity, rest);
            var all := Drain(CoLaB, capacity, f + rest);
            Frames(all.log) == [f] + Frames(r.log) && all.buffer == r.buffer && all.spinning == r.spinning
  {
    var buf := f + rest;
    FindWholeFrame(capacity, f, rest);
    assert buf[0..] == buf && buf[..|f|] == f && buf[|f|..] == rest;
    RoundLog([], f, Drain(CoLaB, capacity, rest).log);
  }

  lemma DrainPartOfFrame(capacity: nat, f: seq<byte>, n: nat)
    requires capacity >= OVERHEAD && Awaited(capacity, f) && n < |f|
    ensures Drain(CoLaB, capacity, f[..n]) == Receiver([], f[..n], false)
  {
    FindPartOfFrame(capacity, f, n);
    assert f[..n][0..] == f[..n];
  }

  // ---- a prefix of a stream in the buffer ----

  lemma StreamPrefix(frame: seq<byte>, tail: seq<byte>, n: nat)
    requires n <= |frame + tail|
    ensures n < |frame| ==> (frame + tail)[..n] == frame[..n]
    ensures n >= |frame| ==> (frame + tail)[..n] == frame + tail[..n - |frame|]
  {
  }

  lemma {:induction false} JoinSplit(frames: seq<seq<byte>>, k: nat)
    requires k <= |frames|
    ensures Join(frames) == Join(frames[..k]) + Join(frames[k..])
    decreases k
  {
    if k == 0 {
      assert frames[0..] == frames;
    } else {
      JoinSplit(frames[1..], k - 1);
      assert frames[..k][1..] == frames[1..][..k - 1];
      assert frames[1..][k - 1..] == frames[k..];
    }
  }

  lemma {:induction false} JoinAppend(frames: seq<seq<byte>>, f: seq<byte>)
    ensures Join(frames + [f]) == Join(frames) + f
  {
    if frames == [] {
      assert frames + [f] == [f] && [f][1..] == [];
    } else {
      JoinAppend(frames[1..], f);
      assert (frames + [f])[1..] == frames[1..] + [f];
    }
  }

  /** A prefix of a stream is its complete frames and the unfinished one. */
  lemma {:induction false} PrefixSplits(frames: seq<seq<byte>>, n: nat)
    requires n <= |Join(frames)|
    ensures Join(frames)[..n] == Join(frames[..Complete(frames, n)]) + Unfinished(frames, n)
    decreases |frames|
  {
    if frames != [] {
      var f, tail := frames[0], Join(frames[1..]);
      StreamPrefix(f, tail, n);
      if n >= |f| {
        PrefixSplits(frames[1..], n - |f|);
        var k := Complete(frames, n);
        assert frames[..k][1..] == frames[1..][..k - 1];
      }
    }
  }

  lemma DrainEmpty(capacity: nat)
    requires capacity >= OVERHEAD
    ensures Drain(CoLaB, capacity, []) == Receiver([], [], false)
  {
  }

  lemma FirstArrives(capacity: nat, frames: seq<seq<byte>>, n: nat)
    requires frames != [] && Arriving(capacity, frames, n) && n <= |Join(frames)|
    ensures Awaited(capacity, frames[0])
    ensures n >= |frames[0]| ==>
              Deliverable(capacity, frames[0]) && Arriving(capacity, frames[1..], n - |frames[0]|)
  {
    if n >= |frames[0]| {
      assert |frames| == 1 ==> Join(frames[1..]) == [];
      forall i | 0 <= i < |frames| - 1
        ensures frames[1..][i] == frames[i + 1]
      {
      }
    }
  }

  /** Draining the first n bytes of a stream emits the complete frames and keeps the unfinished one. */
  lemma {:induction false} DrainStream(capacity: nat, frames: seq<seq<byte>>, n: nat)
    requires capacity >= OVERHEAD && Arriving(capacity, frames, n) && n <= |Join(frames)|
    ensures var r := Drain(CoLaB, capacity, Join(frames)[..n]);
            && Frames(r.log) == frames[..Complete(frames, n)]
            && r.buffer == Unfinished(frames, n) && !r.spinning
    decreases |frames|
  {
    hide Drain, Frames, Deliverable, Awaited, Arriving;
    LogNone();
    DrainEmpty(capacity);
    if frames == [] {
      assert Join(frames)[..n] == [];
    } else {
      var f, tail := frames[0], Join(frames[1..]);
      FirstArrives(capacity, frames, n);
      StreamPrefix(f, tail, n);
      if n < |f| {
        DrainPartOfFrame(capacity, f, n);
      } else {
        DrainStream(capacity, frames[1..], n - |f|);
        DrainWholeFrame(capacity, f, tail[..n - |f|]);
      }
    }
  }

  /** Counting goes on behind the complete frames. */
  lemma {:induction false} CountingContinues(frames: seq<seq<byte>>, n0: nat, n: nat)
    requires n0 <= n
    ensures var k, begun := Complete(frames, n0), n0 - |Unfinished(frames, n0)|;
            && Complete(frames, n) == k + Complete(frames[k..], n - begun)
            && (k < |frames| ==> Unfinished(frames, n) == Unfinished(frames[k..], n - begun))
            && (k == |frames| ==> Unfinished(frames, n) == [])
    decreases |frames|
  {
    var k := Complete(frames, n0);
    if k > 0 {
      var m := |frames[0]|;
      CountingContinues(frames[1..], n0 - m, n - m);
      assert frames[1..][k - 1..] == frames[k..];
    } else {
      assert frames[0..] == frames;
    }
  }

  lemma SliceOfRest(done: seq<byte>, todo: seq<byte>, u: seq<byte>, n0: nat, chunk: seq<byte>)
    requires n0 + |chunk| <= |done + todo| && (done + todo)[..n0] == done + u
    requires chunk == (done + todo)[n0..n0 + |chunk|]
    ensures |u + chunk| <= |todo| && u + chunk == todo[..|u + chunk|]
  {
    assert n0 == |done| + |u|;
    forall i | 0 <= i < |u|
      ensures u[i] == todo[i]
    {
      assert (done + u)[|done| + i] == (done + todo)[..n0][|done| + i];
    }
  }

  /** Behind the complete frames the stream goes on as the stream of the remaining frames. */
  lemma InputIsPrefix(frames: seq<seq<byte>>, n0: nat, chunk: seq<byte>)
    requires n0 + |chunk| <= |Join(frames)| && chunk == Join(frames)[n0..n0 + |chunk|]
    ensures var input := Unfinished(frames, n0) + chunk;
            var rest := Join(frames[Complete(frames, n0)..]);
            |input| <= |rest| && input == rest[..|input|]
  {
    var k := Complete(frames, n0);
    PrefixSplits(frames, n0);
    JoinSplit(frames, k);
    SliceOfRest(Join(frames[..k]), Join(frames[k..]), Unfinished(frames, n0), n0, chunk);
  }

  lemma TakeMore<T>(s: seq<T>, k: nat, m: nat)
    requires k + m <= |s|
    ensures s[..k] + s[k..][..m] == s[..k + m]
  {
  }

  lemma RestArrives(capacity: nat, frames: seq<seq<byte>>, k: nat, n: nat)
    requires k <= |frames| && Arriving(capacity, frames, n) && |Join(frames[..k])| <= n
    ensures Arriving(capacity, frames[k..], n - |Join(frames[..k])|)
  {
    hide Deliverable, Rejected;
    JoinSplit(frames, k);
  }

  /** What draining the unfinished frame and one more chunk yields. */
  lemma DrainContinues(capacity: nat, frames: seq<seq<byte>>, n0: nat, chunk: seq<byte>)
    requires capacity >= OVERHEAD && Arriving(capacity, frames, n0 + |chunk|)
    requires n0 + |chunk| <= |Join(frames)| && chunk == Join(frames)[n0..n0 + |chunk|]
    ensures var k, n := Complete(frames, n0), n0 + |chunk|;
            var d := Drain(CoLaB, capacity, Unfinished(frames, n0) + chunk);
            && frames[..k] + Frames(d.log) == frames[..Complete(frames, n)]
            && d.buffer == Unfinished(frames, n) && !d.spinning
  {
    hide Drain, Join, Complete, Arriving, Frames;
    var k, input := Complete(frames, n0), Unfinished(frames, n0) + chunk;
    InputIsPrefix(frames, n0, chunk);
    PrefixSplits(frames, n0);
    RestArrives(capacity, frames, k, n0 + |chunk|);
    DrainStream(capacity, frames[k..], |input|);
    CountingContinues(frames, n0, n0 + |chunk|);
    TakeMore(frames, k, Complete(frames[k..], |input|));
  }

  // ---- whole runs ----

  /** The receiver has queued the complete frames of the first n bytes and holds the unfinished one. */
  ghost predicate InStep(frames: seq<seq<byte>>, n: nat, r: Receiver) {
    && Frames(r.log) == frames[..Complete(frames, n)]
    && r.buffer == Unfinished(frames, n)
    && !r.spinning
  }

  lemma NothingRead(capacity: nat, frames: seq<seq<byte>>)
    requires capacity >= OVERHEAD && Arriving(capacity, frames, 0)
    ensures InStep(frames, 0, ReadRun(CoLaB, capacity, Idle, []))
  {
    LogNone();
    assert frames != [] ==> |frames[0]| >= OVERHEAD;
  }

  /** A receiver in step with the stream stays in step over one fitting read. */
  lemma ReadContinues(capacity: nat, frames: seq<seq<byte>>, st: Receiver, n0: nat, chunk: seq<byte>)
    requires capacity >= OVERHEAD && Arriving(capacity, frames, n0 + |chunk|)
    requires n0 + |chunk| <= |Join(frames)| && chunk == Join(frames)[n0..n0 + |chunk|]
    requires InStep(frames, n0, st)
    requires chunk != [] && |st.buffer| + |chunk| <= capacity
    ensures InStep(frames, n0 + |chunk|, ReadStep(CoLaB, capacity, st, chunk))
  {
    assert chunk[..|chunk|] == chunk;
    ReadStepLog(CoLaB, capacity, st, chunk);
    DrainContinues(capacity, frames, n0, chunk);
  }

  lemma FewerArrive(capacity: nat, frames: seq<seq<byte>>, n: nat, m: nat)
    requires Arriving(capacity, frames, n) && m <= n
    ensures Arriving(capacity, frames, m)
  {
    hide Deliverable, Rejected, Join;
  }

  lemma LastChunk(stream: seq<byte>, front: seq<byte>, last: seq<byte>)
    requires front + last <= stream
    ensures front <= stream && last == stream[|front|..|front| + |last|]
  {
    assert front + last == stream[..|front| + |last|];
    assert last == (front + last)[|front|..];
  }

  /**
   For every list of frames and every split of any prefix of their stream into fitting reads:
   exactly the complete frames are queued, once each and in order, and the buffer holds exactly
   the unfinished frame. The last frame may be one that will be rejected, as long as it is incomplete.
   */
  lemma {:induction false} Reassembly(capacity: nat, frames: seq<seq<byte>>, chunks: seq<seq<byte>>)
    requires capacity >= OVERHEAD && Arriving(capacity, frames, |Concat(chunks)|)
    requires Fitting(CoLaB, capacity, chunks) && Concat(chunks) <= Join(frames)
    ensures InStep(frames, |Concat(chunks)|, ReadRun(CoLaB, capacity, Idle, chunks))
  {
    hide Drain, Frames, Join, Arriving, ReadStep, Complete, Unfinished, InStep;
    if chunks == [] {
      NothingRead(capacity, frames);
    } else {
      var front, last := chunks[..|chunks| - 1], chunks[|chunks| - 1];
      LastChunk(Join(frames), Concat(front), last);
      FewerArrive(capacity, frames, |Concat(chunks)|, |Concat(front)|);
      Reassembly(capacity, frames, front);
      ReadContinues(capacity, frames, ReadRun(CoLaB, capacity, Idle, front), |Concat(front)|, last);
    }
  }

  lemma {:induction false} CompleteAll(frames: seq<seq<byte>>)
    ensures Complete(frames, |Join(frames)|) == |frames|
    ensures Unfinished(frames, |Join(frames)|) == []
  {
    if frames != [] {
      CompleteAll(frames[1..]);
    }
  }

  /** The whole stream, however split: exactly its frames, and nothing left over. */
  lemma WholeStream(capacity: nat, frames: seq<seq<byte>>, chunks: seq<seq<byte>>)
    requires capacity >= OVERHEAD && AllDeliverable(capacity, frames)
    requires Fitting(CoLaB, capacity, chunks) && Concat(chunks) == Join(frames)
    ensures var r := ReadRun(CoLaB, capacity, Idle, chunks);
            Frames(r.log) == frames && r.buffer == [] && !r.spinning
  {
    AllArrive(capacity, frames, |Concat(chunks)|);
    Reassembly(capacity, frames, chunks);
    CompleteAll(frames);
    assert frames[..|frames|] == frames;
  }

  lemma {:induction false} UnfinishedBound(capacity: nat, frames: seq<seq<byte>>, n: nat)
    requires AllDeliverable(capacity, frames)
    ensures |Unfinished(frames, n)| < UINT16_RANGE
    decreases |frames|
  {
    if frames != [] {
      assert Deliverable(capacity, frames[0]);
      if n >= |frames[0]| {
        UnfinishedBound(capacity, frames[1..], n - |frames[0]|);
      }
    }
  }

  /** With the driver's buffer and the reads of its TCP thread, no read of such a stream overflows. */
  lemma {:induction false} DriverReadsFit(frames: seq<seq<byte>>, chunks: seq<seq<byte>>)
    requires AllDeliverable(BUFFER_SIZE, frames) && Concat(chunks) <= Join(frames)
    requires forall i :: 0 <= i < |chunks| ==> 0 < |chunks[i]| <= MAX_READ
    ensures Fitting(CoLaB, BUFFER_SIZE, chunks)
  {
    if chunks != [] {
      var front, last := chunks[..|chunks| - 1], chunks[|chunks| - 1];
      LastChunk(Join(frames), Concat(front), last);
      DriverReadsFit(frames, front);
      AllArrive(BUFFER_SIZE, frames, |Concat(front)|);
      Reassembly(BUFFER_SIZE, frames, front);
      UnfinishedBound(BUFFER_SIZE, frames, |Concat(front)|);
    }
  }

  // ---- frames beyond the 16-bit counter ----

  lemma {:induction false} PartsOfFrame(capacity: nat, f: seq<byte>, chunks: seq<seq<byte>>)
    requires capacity >= OVERHEAD && WellFormedB(f) && |f| <= capacity
    requires Fitting(CoLaB, capacity, chunks) && Concat(chunks) < f
    ensures ReadRun(CoLaB, capacity, Idle, chunks) == Receiver([], Concat(chunks), false)
  {
    if chunks != [] {
      var front, last := chunks[..|chunks| - 1], chunks[|chunks| - 1];
      LastChunk(f, Concat(front), last);
      PartsOfFrame(capacity, f, front);
      var input := Concat(front) + last;
      assert input == f[..|input|];
      DrainPartOfFrame(capacity, f, |input|);
      assert last[..|last|] == last;
    }
  }

  lemma LongFrameSpins(capacity: nat, f: seq<byte>, chunks: seq<seq<byte>>)
    requires capacity >= OVERHEAD && WellFormedB(f) && UINT16_RANGE < |f| <= capacity
    requires Fitting(CoLaB, capacity, chunks) && Concat(chunks) == f
    ensures ReadRun(CoLaB, capacity, Idle, chunks) == Receiver([], f, true)
  {
    var front, last := chunks[..|chunks| - 1], chunks[|chunks| - 1];
    PartsOfFrame(capacity, f, front);
    assert last[..|last|] == last && f[0..] == f;
    FindLongFrame(capacity, f);
  }

  /**
   A frame that fits the receive buffer is delivered exactly if it has at most 65536 bytes. For a
   longer one the callback never returns, however the frame is split into reads.
   */
  lemma DeliveredExactly(capacity: nat, f: seq<byte>, chunks: seq<seq<byte>>)
    requires capacity >= OVERHEAD && WellFormedB(f) && |f| <= capacity
    requires Fitting(CoLaB, capacity, chunks) && Concat(chunks) == f
    ensures var r := ReadRun(CoLaB, capacity, Idle, chunks);
            && (Frames(r.log) == [f] <==> |f| <= UINT16_RANGE)
            && (r.spinning <==> |f| > UINT16_RANGE)
  {
    if |f| <= UINT16_RANGE {
      assert Join([f]) == f + Join([]);
      WholeStream(capacity, [f], chunks);
    } else {
      LongFrameSpins(capacity, f, chunks);
    }
  }
}
