/** CoLa-B bytes the receiver rejects, a wrong checksum or a length beyond its buffer, and what it goes on with. */
module ColaBReject {
  import opened Bytes
  import opened ColaFraming
  import opened ColaStreams
  import opened ColaBStreams

  /** A deliverable frame with one byte of its payload, or its checksum, changed is rejected. */
  lemma ChangedByteRejected(capacity: nat, f: seq<byte>, j: nat, b: byte)
    requires capacity >= OVERHEAD && Deliverable(capacity, f) && 8 <= j < |f| && b != f[j]
    ensures Rejected(capacity, f[j := b])
  {
    hide XorAll;
    var g, last := f[j := b], |f| - 1;
    assert g[4..8] == f[4..8];
    if j < last {
      assert g[8..last] == f[8..last][j - 8 := b];
      OneByteSeen(f[8..last], j - 8, b);
    } else {
      assert g[8..last] == f[8..last];
    }
  }

  // ---- one read ----

  lemma RejectedClears(capacity: nat, bad: seq<byte>, rest: seq<byte>)
    requires capacity >= OVERHEAD && Rejected(capacity, bad)
    ensures Drain(CoLaB, capacity, bad + rest) == Receiver([Discarded(bad + rest)], [], false)
  {
    var buf := bad + rest;
    assert MagicAt(buf, 0);
    MagicFromUnique(buf, 0, 0);
    assert buf[0..] == buf && buf[..|buf|] == buf;
    assert buf[4..8] == bad[4..8];
    assert buf[8..|bad| - 1] == bad[8..|bad| - 1];
  }

  /** Frames in front of the rejected bytes are delivered, all bytes behind them in the buffer are given up. */
  lemma {:induction false} DrainRejected(capacity: nat, frames: seq<seq<byte>>, bad: seq<byte>, rest: seq<byte>)
    requires capacity >= OVERHEAD && AllDeliverable(capacity, frames) && Rejected(capacity, bad)
    ensures var d := Drain(CoLaB, capacity, Join(frames) + (bad + rest));
            Frames(d.log) == frames && d.buffer == [] && !d.spinning
    decreases |frames|
  {
    hide Drain, Frames, Rejected, Deliverable;
    if frames == [] {
      assert Join(frames) + (bad + rest) == bad + rest;
      RejectedClears(capacity, bad, rest);
      LogOne(Discarded(bad + rest));
    } else {
      var f, tail := frames[0], Join(frames[1..]) + (bad + rest);
      assert Join(frames) + (bad + rest) == f + tail;
      DrainRejected(capacity, frames[1..], bad, rest);
      DrainWholeFrame(capacity, f, tail);
    }
  }

  /**
   Once the buffer starts with a complete frame of wrong checksum, or with a length beyond the buffer, the read that
   made it so queues nothing and leaves an empty buffer.
   */
  lemma RejectedRead(capacity: nat, st: Receiver, chunk: seq<byte>, bad: seq<byte>)
    requires capacity >= OVERHEAD && !st.spinning && chunk != [] && |st.buffer| + |chunk| <= capacity
    requires bad <= st.buffer + chunk && Rejected(capacity, bad)
    ensures var r := ReadStep(CoLaB, capacity, st, chunk);
            Frames(r.log) == Frames(st.log) && r.buffer == [] && !r.spinning
  {
    hide Drain, Frames, Rejected;
    var rest := (st.buffer + chunk)[|bad|..];
    assert bad + rest == st.buffer + chunk && chunk[..|chunk|] == chunk;
    RejectedClears(capacity, bad, rest);
    LogOne(Discarded(bad + rest));
    ReadStepLog(CoLaB, capacity, st, chunk);
  }

  // ---- whole runs ----

  /** A run that starts with an empty buffer queues behind the old frames what it queues by itself. */
  lemma {:induction false} RunBehind(capacity: nat, st: Receiver, chunks: seq<seq<byte>>)
    requires capacity >= OVERHEAD && st.buffer == [] && !st.spinning
    ensures var r, own := ReadRun(CoLaB, capacity, st, chunks), ReadRun(CoLaB, capacity, Idle, chunks);
            Frames(r.log) == Frames(st.log) + Frames(own.log) && r.buffer == own.buffer && r.spinning == own.spinning
    decreases |chunks|
  {
    hide Drain, Frames;
    LogNone();
    if chunks != [] {
      var front, last := chunks[..|chunks| - 1], chunks[|chunks| - 1];
      RunBehind(capacity, st, front);
      var r, own := ReadRun(CoLaB, capacity, st, front), ReadRun(CoLaB, capacity, Idle, front);
      if !own.spinning {
        ReadStepLog(CoLaB, capacity, r, last);
        ReadStepLog(CoLaB, capacity, own, last);
      }
    }
  }

  lemma {:induction false} RunSplits(capacity: nat, st: Receiver, a: seq<seq<byte>>, b: seq<seq<byte>>)
    requires capacity >= OVERHEAD && |st.buffer| <= capacity
    ensures ReadRun(CoLaB, capacity, st, a + b) == ReadRun(CoLaB, capacity, ReadRun(CoLaB, capacity, st, a), b)
    decreases |b|
  {
    hide ReadStep;
    if b == [] {
      assert a + b == a;
    } else {
      var front := b[..|b| - 1];
      RunSplits(capacity, st, a, front);
      assert (a + b)[..|a + b| - 1] == a + front;
    }
  }

  lemma {:induction false} CompleteWithout(frames: seq<seq<byte>>, bad: seq<byte>, n: nat)
    requires n < |Join(frames)| + |bad|
    ensures var k := Complete(frames + [bad], n);
            k <= |frames| && (frames + [bad])[..k] == frames[..k]
    decreases |frames|
  {
    if frames == [] {
      assert frames + [bad] == [bad] && [bad][1..] == [];
    } else {
      assert (frames + [bad])[1..] == frames[1..] + [bad];
      if n >= |frames[0]| {
        CompleteWithout(frames[1..], bad, n - |frames[0]|);
        var k := Complete(frames + [bad], n);
        assert frames[..k] == [frames[0]] + frames[1..][..k - 1];
      }
    }
  }

  /** What is buffered and what is read next, behind the frames that are complete. */
  lemma Remaining(done: seq<byte>, todo: seq<byte>, buffer: seq<byte>, n: nat, chunk: seq<byte>)
    requires n <= |done + todo| && (done + todo)[..n] == done + buffer && chunk == (done + todo)[n..]
    ensures buffer + chunk == todo
  {
    assert (done + todo)[..n] + (done + todo)[n..] == done + todo;
    assert done + buffer + chunk == done + (buffer + chunk);
    assert (done + (buffer + chunk))[|done|..] == buffer + chunk && (done + todo)[|done|..] == todo;
  }

  /** Before the rejected bytes are complete, the buffer and the next read hold the rest of the stream up to them. */
  lemma InputBeforeRejection(frames: seq<seq<byte>>, bad: seq<byte>, rest: seq<byte>, n: nat, chunk: seq<byte>)
    requires n < |Join(frames) + bad| && n + |chunk| == |Join(frames) + bad + rest|
    requires chunk == (Join(frames) + bad + rest)[n..]
    ensures var k := Complete(frames + [bad], n);
            && k <= |frames| && (frames + [bad])[..k] == frames[..k]
            && Unfinished(frames + [bad], n) + chunk == Join(frames[k..]) + (bad + rest)
  {
    hide Join, Complete, Unfinished;
    var k, buffer := Complete(frames + [bad], n), Unfinished(frames + [bad], n);
    JoinAppend(frames, bad);
    CompleteWithout(frames, bad, n);
    PrefixSplits(frames + [bad], n);
    JoinSplit(frames, k);
    var done, todo := Join(frames[..k]), Join(frames[k..]) + (bad + rest);
    assert Join(frames) + bad + rest == done + todo;
    assert (done + todo)[..n] == (Join(frames) + bad)[..n];
    Remaining(done, todo, buffer, n, chunk);
  }

  /** The read that completes the rejected bytes, with anything behind them. */
  lemma RejectingRead(capacity: nat, frames: seq<seq<byte>>, bad: seq<byte>, rest: seq<byte>, st: Receiver, n: nat,
                      chunk: seq<byte>)
    requires capacity >= OVERHEAD && AllDeliverable(capacity, frames) && Rejected(capacity, bad)
    requires n < |Join(frames) + bad| <= n + |chunk| && InStep(frames + [bad], n, st)
    requires n + |chunk| == |Join(frames) + bad + rest| && chunk == (Join(frames) + bad + rest)[n..]
    requires |st.buffer| + |chunk| <= capacity
    ensures var r := ReadStep(CoLaB, capacity, st, chunk);
            Frames(r.log) == frames && r.buffer == [] && !r.spinning
  {
    hide Drain, Frames, Rejected, Deliverable, Join, Complete, Unfinished;
    var k := Complete(frames + [bad], n);
    InputBeforeRejection(frames, bad, rest, n, chunk);
    DrainRejected(capacity, frames[k..], bad, rest);
    assert chunk[..|chunk|] == chunk;
    ReadStepLog(CoLaB, capacity, st, chunk);
    assert frames[..k] + frames[k..] == frames;
  }

  lemma FrontOf(front: seq<byte>, last: seq<byte>, stream: seq<byte>, rest: seq<byte>)
    requires front + last == stream + rest && |front| <= |stream|
    ensures front <= stream && last == (stream + rest)[|front|..]
  {
    assert (front + last)[..|front|] == front && (stream + rest)[..|front|] == stream[..|front|];
  }

  /** Rejected bytes behind any frames, up to the read that completes them. */
  lemma ReadsUpToRejection(capacity: nat, frames: seq<seq<byte>>, bad: seq<byte>, rest: seq<byte>,
                           before: seq<seq<byte>>, chunk: seq<byte>)
    requires capacity >= OVERHEAD && AllDeliverable(capacity, frames) && Rejected(capacity, bad)
    requires Fitting(CoLaB, capacity, before + [chunk])
    requires |Concat(before)| < |Join(frames) + bad| && Concat(before) + chunk == Join(frames) + bad + rest
    ensures var r := ReadRun(CoLaB, capacity, Idle, before + [chunk]);
            Frames(r.log) == frames && r.buffer == [] && !r.spinning
  {
    hide Drain, Frames, Rejected, Deliverable, ReadStep, Join, Complete, Unfinished, InStep;
    var st, n := ReadRun(CoLaB, capacity, Idle, before), |Concat(before)|;
    assert (before + [chunk])[..|before|] == before;
    JoinAppend(frames, bad);
    FrontOf(Concat(before), chunk, Join(frames) + bad, rest);
    assert Arriving(capacity, frames + [bad], n);
    Reassembly(capacity, frames + [bad], before);
    RejectingRead(capacity, frames, bad, rest, st, n, chunk);
  }

  /**
   Rejected bytes behind any frames, split into any fitting reads: the frames in front are delivered, what the
   completing read holds behind the rejected bytes is lost, and of the stream that follows from the next read on exactly
   the complete frames are delivered and the unfinished one is buffered.
   */
  lemma RejectionCostsOneRead(capacity: nat, frames: seq<seq<byte>>, bad: seq<byte>, rest: seq<byte>,
                              later: seq<seq<byte>>, before: seq<seq<byte>>, chunk: seq<byte>, after: seq<seq<byte>>)
    requires capacity >= OVERHEAD && AllDeliverable(capacity, frames) && AllDeliverable(capacity, later)
    requires Rejected(capacity, bad) && Fitting(CoLaB, capacity, before + [chunk]) && Fitting(CoLaB, capacity, after)
    requires |Concat(before)| < |Join(frames) + bad| && Concat(before) + chunk == Join(frames) + bad + rest
    requires Concat(after) <= Join(later)
    ensures var r := ReadRun(CoLaB, capacity, Idle, before + [chunk] + after);
            && Frames(r.log) == frames + later[..Complete(later, |Concat(after)|)]
            && r.buffer == Unfinished(later, |Concat(after)|) && !r.spinning
  {
    hide Drain, Frames, Rejected, Deliverable, ReadStep, Join, Complete, Unfinished, Fitting;
    var st := ReadRun(CoLaB, capacity, Idle, before + [chunk]);
    ReadsUpToRejection(capacity, frames, bad, rest, before, chunk);
    RunSplits(capacity, Idle, before + [chunk], after);
    RunBehind(capacity, st, after);
    AllArrive(capacity, later, |Concat(after)|);
    Reassembly(capacity, later, after);
  }
}
