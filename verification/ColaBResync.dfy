/** CoLa-B with garbage before the first frame: exactly when the frames are still found. */
module ColaBResync {
  import opened Bytes
  import opened ColaFraming
  import opened ColaStreams
  import opened ColaBStreams

  /** The first magic word of garbage + rest stands at the start of rest, within reach of 16 bits. */
  ghost predicate Leading(garbage: seq<byte>, rest: seq<byte>) {
    |garbage| < UINT16_RANGE && forall i :: 0 <= i < |garbage| ==> !MagicAt(garbage + rest, i)
  }

  lemma MagicInSlice(s: seq<byte>, lo: nat, hi: nat, i: nat)
    requires lo <= hi <= |s| && MagicAt(s[lo..hi], i)
    ensures MagicAt(s, lo + i) && lo + i + 4 <= hi
  {
    var t := s[lo..hi];
    assert t[i] == s[lo + i] && t[i + 1] == s[lo + i + 1] && t[i + 2] == s[lo + i + 2] && t[i + 3] == s[lo + i + 3];
  }

  /** Garbage in front of a magic word in the same buffer changes nothing but the log. */
  lemma SkipGarbage(capacity: nat, garbage: seq<byte>, rest: seq<byte>)
    requires capacity >= OVERHEAD && MagicAt(rest, 0) && Leading(garbage, rest)
    ensures var r := Drain(CoLaB, capacity, rest);
            var all := Drain(CoLaB, capacity, garbage + rest);
            Frames(all.log) == Frames(r.log) && all.buffer == r.buffer && all.spinning == r.spinning
  {
    var buf := garbage + rest;
    MagicFromUnique(rest, 0, 0);
    assert MagicAt(buf, |garbage|);
    MagicFromUnique(buf, 0, |garbage|);
    assert rest[0..] == rest && buf[|garbage|..] == rest;
    var s := FindBAligned(capacity, rest);
    assert FindB(capacity, rest) == s;
    assert FindB(capacity, buf) == Scan(|garbage| + s.drop, s.found);
    SameAfterSkip(capacity, garbage, rest, s);
  }

  lemma SameAfterSkip(capacity: nat, garbage: seq<byte>, rest: seq<byte>, s: Scan)
    requires capacity >= OVERHEAD && s.drop <= |rest|
    requires s.found.Frame? ==> s.drop == 0
    requires FindB(capacity, rest) == s
    requires FindB(capacity, garbage + rest) == Scan(|garbage| + s.drop, s.found)
    ensures var r := Drain(CoLaB, capacity, rest);
            var all := Drain(CoLaB, capacity, garbage + rest);
            Frames(all.log) == Frames(r.log) && all.buffer == r.buffer && all.spinning == r.spinning
  {
    var buf := garbage + rest;
    assert buf[|garbage| + s.drop..] == rest[s.drop..];
    match s.found
    case Frame(len) =>
      assert rest[0..] == rest && rest[..0] == [];
      RoundLog([], rest[..len], Drain(CoLaB, capacity, rest[len..]).log);
      RoundLog(buf[..|garbage|], rest[..len], Drain(CoLaB, capacity, rest[len..]).log);
    case _ =>
      DiscardLog(rest[..s.drop]);
      DiscardLog(buf[..|garbage| + s.drop]);
  }

  /** At least four bytes without a magic word are given up. */
  lemma NoMagicClears(capacity: nat, buf: seq<byte>)
    requires capacity >= OVERHEAD && |buf| >= 4
    requires forall i :: 0 <= i < |buf| ==> !MagicAt(buf, i)
    ensures Drain(CoLaB, capacity, buf) == Receiver(Discard(buf), [], false)
  {
    MagicFromUnique(buf, 0, |buf|);
    assert buf[..|buf|] == buf;
  }

  lemma TooShortStays(capacity: nat, buf: seq<byte>)
    requires capacity >= OVERHEAD && |buf| < 4
    ensures Drain(CoLaB, capacity, buf) == Receiver([], buf, false)
  {
    assert buf[0..] == buf;
  }

  /** The first four bytes of a nonempty stream are its magic word. */
  lemma StreamStartsWithMagic(capacity: nat, frames: seq<seq<byte>>, n: nat)
    requires frames != [] && AllDeliverable(capacity, frames) && 4 <= n <= |Join(frames)|
    ensures MagicAt(Join(frames)[..n], 0)
  {
    assert Deliverable(capacity, frames[0]);
  }

  lemma LeadingPrefix(garbage: seq<byte>, rest: seq<byte>, n: nat)
    requires n <= |rest| && Leading(garbage, rest)
    ensures Leading(garbage, rest[..n])
  {
    forall i | 0 <= i < |garbage|
      ensures !MagicAt(garbage + rest[..n], i)
    {
      if MagicAt(garbage + rest[..n], i) {
        var s := garbage + rest;
        assert garbage + rest[..n] == s[0..|garbage| + n];
        MagicInSlice(s, 0, |garbage| + n, i);
      }
    }
  }

  lemma LeadingSuffix(garbage: seq<byte>, rest: seq<byte>, k: nat)
    requires k <= |garbage| && Leading(garbage, rest)
    ensures Leading(garbage[k..], rest)
  {
    forall i | 0 <= i < |garbage| - k
      ensures !MagicAt(garbage[k..] + rest, i)
    {
      if MagicAt(garbage[k..] + rest, i) {
        var s := garbage + rest;
        assert garbage[k..] + rest == s[k..|s|];
        MagicInSlice(s, k, |s|, i);
      }
    }
  }

  /** The first n bytes of a stream, at least a magic word, with garbage in front, drained at once. */
  lemma DrainGarbageAndStream(capacity: nat, garbage: seq<byte>, frames: seq<seq<byte>>, n: nat)
    requires capacity >= OVERHEAD && frames != [] && AllDeliverable(capacity, frames)
    requires Leading(garbage, Join(frames)) && 4 <= n <= |Join(frames)|
    ensures InStep(frames, n, Drain(CoLaB, capacity, garbage + Join(frames)[..n]))
  {
    StreamStartsWithMagic(capacity, frames, n);
    LeadingPrefix(garbage, Join(frames), n);
    SkipGarbage(capacity, garbage, Join(frames)[..n]);
    AllArrive(capacity, frames, n);
    DrainStream(capacity, frames, n);
  }

  /** All frames are delivered and nothing is left over. */
  ghost predicate Delivers(frames: seq<seq<byte>>, r: Receiver) {
    Frames(r.log) == frames && r.buffer == [] && !r.spinning
  }

  lemma InStepAtEnd(frames: seq<seq<byte>>, r: Receiver)
    requires InStep(frames, |Join(frames)|, r)
    ensures Delivers(frames, r)
  {
    CompleteAll(frames);
    assert frames[..|frames|] == frames;
  }

  lemma JoinAtLeastFour(capacity: nat, frames: seq<seq<byte>>)
    requires frames != [] && AllDeliverable(capacity, frames)
    ensures |Join(frames)| >= 4
  {
    assert Deliverable(capacity, frames[0]);
  }

  /** A read behind a log without frames adds just the frames of its own drain. */
  lemma ReadAfterNoFrames(capacity: nat, st: Receiver, chunk: seq<byte>)
    requires capacity >= OVERHEAD && Frames(st.log) == [] && !st.spinning
    requires chunk != [] && |st.buffer| + |chunk| <= capacity
    ensures var r := ReadStep(CoLaB, capacity, st, chunk);
            var d := Drain(CoLaB, capacity, st.buffer + chunk);
            Frames(r.log) == Frames(d.log) && r.buffer == d.buffer && r.spinning == d.spinning
  {
    assert chunk[..|chunk|] == chunk;
    ReadStepLog(CoLaB, capacity, st, chunk);
  }

  // ---- any reads of garbage + stream ----

  /** Bytes buffered while no magic word is complete: four or more of them are given up. */
  function Pending(chunks: seq<seq<byte>>): nat {
    if chunks == [] then 0
    else
      var p := Pending(chunks[..|chunks| - 1]) + |chunks[|chunks| - 1]|;
      if p < 4 then p else 0
  }

  /** No read that ends inside the first magic word, behind so much garbage, leaves four or more bytes in the buffer. */
  predicate KeepsMagic(garbage: nat, chunks: seq<seq<byte>>) {
    chunks == []
    || var front, last := chunks[..|chunks| - 1], chunks[|chunks| - 1];
       && KeepsMagic(garbage, front)
       && (garbage < |Concat(chunks)| < garbage + 4 ==> Pending(front) + |last| < 4)
  }

  /**
   No magic word is complete after n bytes: no frame, and the last p bytes are buffered, all of the stream's among
   them.
   */
  ghost predicate Searching(garbage: seq<byte>, rest: seq<byte>, n: nat, p: nat, r: Receiver) {
    && n < |garbage| + 4 && n <= |garbage + rest| && p <= n && p < 4 && n - p <= |garbage|
    && Frames(r.log) == [] && !r.spinning && r.buffer == (garbage + rest)[n - p..n]
  }

  lemma JoinNone()
    ensures Join([]) == []
  {
  }

  /** Fewer bytes in frames and buffer than the stream had so far, or no return from the callback. */
  ghost predicate Behind(streamed: int, r: Receiver) {
    r.spinning || |Join(Frames(r.log))| + |r.buffer| < streamed
  }

  lemma NoMagicYet(garbage: seq<byte>, rest: seq<byte>, a: nat, n: nat, i: nat)
    requires Leading(garbage, rest) && a <= n <= |garbage + rest| && n < |garbage| + 4
    ensures !MagicAt((garbage + rest)[a..n], i)
  {
    if MagicAt((garbage + rest)[a..n], i) {
      MagicInSlice(garbage + rest, a, n, i);
    }
  }

  /** A read that does not complete the magic word. */
  lemma SearchGoesOn(capacity: nat, garbage: seq<byte>, rest: seq<byte>, st: Receiver, n: nat, p: nat, chunk: seq<byte>)
    requires capacity >= OVERHEAD && Leading(garbage, rest) && Searching(garbage, rest, n, p, st)
    requires n + |chunk| <= |garbage + rest| && chunk == (garbage + rest)[n..n + |chunk|]
    requires n + |chunk| < |garbage| + 4 && chunk != [] && |st.buffer| + |chunk| <= capacity
    ensures var r := ReadStep(CoLaB, capacity, st, chunk);
            if p + |chunk| < 4 then Searching(garbage, rest, n + |chunk|, p + |chunk|, r)
            else if n + |chunk| <= |garbage| then Searching(garbage, rest, n + |chunk|, 0, r)
            else Behind(n + |chunk| - |garbage|, r)
  {
    hide Drain, ReadStep, Frames, Leading, Join, MagicAt;
    var buf := st.buffer + chunk;
    SliceMore(garbage + rest, n - p, n, n + |chunk|);
    ReadAfterNoFrames(capacity, st, chunk);
    LogNone();
    JoinNone();
    if |buf| < 4 {
      TooShortStays(capacity, buf);
    } else {
      forall i | 0 <= i < |buf|
        ensures !MagicAt(buf, i)
      {
        NoMagicYet(garbage, rest, n - p, n + |chunk|, i);
      }
      NoMagicClears(capacity, buf);
      DiscardLog(buf);
    }
  }

  lemma SliceMore(s: seq<byte>, a: nat, n: nat, m: nat)
    requires a <= n <= m <= |s|
    ensures s[a..n] + s[n..m] == s[a..m]
  {
  }

  /** Reads of a prefix of garbage and frames. */
  ghost predicate Received(capacity: nat, garbage: seq<byte>, frames: seq<seq<byte>>, chunks: seq<seq<byte>>)
    requires capacity >= OVERHEAD
  {
    Fitting(CoLaB, capacity, chunks) && Concat(chunks) <= garbage + Join(frames)
  }

  /** The bytes of garbage and frames from position n on. */
  ghost predicate NextBytes(garbage: seq<byte>, frames: seq<seq<byte>>, n: nat, chunk: seq<byte>) {
    chunk != [] && n + |chunk| <= |garbage + Join(frames)| && chunk == (garbage + Join(frames))[n..n + |chunk|]
  }

  /** The last read of a run. */
  lemma LastRead(capacity: nat, garbage: seq<byte>, frames: seq<seq<byte>>, chunks: seq<seq<byte>>)
    requires capacity >= OVERHEAD && chunks != [] && Received(capacity, garbage, frames, chunks)
    ensures var front, last := chunks[..|chunks| - 1], chunks[|chunks| - 1];
            var st, n0, p := ReadRun(CoLaB, capacity, Idle, front), |Concat(front)|, Pending(front) + |last|;
            && Received(capacity, garbage, frames, front) && |st.buffer| + |last| <= capacity
            && ReadRun(CoLaB, capacity, Idle, chunks) == ReadStep(CoLaB, capacity, st, last)
            && |Concat(chunks)| == n0 + |last| && NextBytes(garbage, frames, n0, last)
            && Pending(chunks) == (if p < 4 then p else 0)
            && (KeepsMagic(|garbage|, chunks)
                <==> KeepsMagic(|garbage|, front) && (|garbage| < n0 + |last| < |garbage| + 4 ==> p < 4))
  {
    hide ReadStep, Join;
    PrefixChunk(garbage + Join(frames), Concat(chunks[..|chunks| - 1]), chunks[|chunks| - 1]);
  }

  /** A read that does not complete the magic word. */
  lemma SearchRead(capacity: nat, garbage: seq<byte>, frames: seq<seq<byte>>, st: Receiver, n: nat, p: nat,
                   chunk: seq<byte>)
    requires capacity >= OVERHEAD && Leading(garbage, Join(frames)) && Searching(garbage, Join(frames), n, p, st)
    requires NextBytes(garbage, frames, n, chunk) && n + |chunk| < |garbage| + 4 && |st.buffer| + |chunk| <= capacity
    ensures var r := ReadStep(CoLaB, capacity, st, chunk);
            if p + |chunk| < 4 then Searching(garbage, Join(frames), n + |chunk|, p + |chunk|, r)
            else if n + |chunk| <= |garbage| then Searching(garbage, Join(frames), n + |chunk|, 0, r)
            else Behind(n + |chunk| - |garbage|, r)
  {
    hide Searching, Leading, Behind, ReadStep, Join;
    SearchGoesOn(capacity, garbage, Join(frames), st, n, p, chunk);
  }

  /** A read behind the magic word: the receiver gets in step, or stays in step. */
  lemma StepRead(capacity: nat, garbage: seq<byte>, frames: seq<seq<byte>>, st: Receiver, n: nat, p: nat,
                 chunk: seq<byte>)
    requires capacity >= OVERHEAD && frames != [] && AllDeliverable(capacity, frames) && Leading(garbage, Join(frames))
    requires NextBytes(garbage, frames, n, chunk) && |garbage| + 4 <= n + |chunk| && |st.buffer| + |chunk| <= capacity
    requires if n < |garbage| + 4 then Searching(garbage, Join(frames), n, p, st) else InStep(frames, n - |garbage|, st)
    ensures InStep(frames, n + |chunk| - |garbage|, ReadStep(CoLaB, capacity, st, chunk))
  {
    hide Searching, Leading, InStep, ReadStep, Join, AllDeliverable;
    if n < |garbage| + 4 {
      SearchEnds(capacity, garbage, frames, st, n, p, chunk);
    } else {
      var m := n - |garbage|;
      assert chunk == Join(frames)[m..m + |chunk|];
      AllArrive(capacity, frames, m + |chunk|);
      ReadContinues(capacity, frames, st, m, chunk);
    }
  }

  lemma NoReads(capacity: nat, garbage: nat)
    requires capacity >= OVERHEAD
    ensures Concat([]) == [] && Pending([]) == 0 && KeepsMagic(garbage, [])
            && ReadRun(CoLaB, capacity, Idle, []) == Idle
    ensures Frames(Idle.log) == []
  {
    LogNone();
  }

  /** The read that completes the magic word finds the stream. */
  lemma SearchEnds(capacity: nat, garbage: seq<byte>, frames: seq<seq<byte>>, st: Receiver, n: nat, p: nat,
                   chunk: seq<byte>)
    requires capacity >= OVERHEAD && frames != [] && AllDeliverable(capacity, frames)
    requires Leading(garbage, Join(frames)) && Searching(garbage, Join(frames), n, p, st)
    requires n + |chunk| <= |garbage + Join(frames)| && chunk == (garbage + Join(frames))[n..n + |chunk|]
    requires |garbage| + 4 <= n + |chunk| && |st.buffer| + |chunk| <= capacity
    ensures InStep(frames, n + |chunk| - |garbage|, ReadStep(CoLaB, capacity, st, chunk))
  {
    hide Drain, ReadStep, Frames, Leading, AllDeliverable, Complete, Unfinished;
    var j, m := Join(frames), n + |chunk| - |garbage|;
    assert st.buffer + chunk == garbage[n - p..] + j[..m] by {
      Spliced(garbage, j, n - p, n, m);
    }
    ReadAfterNoFrames(capacity, st, chunk);
    LeadingSuffix(garbage, j, n - p);
    DrainGarbageAndStream(capacity, garbage[n - p..], frames, m);
  }

  lemma Spliced(garbage: seq<byte>, j: seq<byte>, a: nat, n: nat, m: nat)
    requires a <= n <= |garbage| + m && a <= |garbage| && m <= |j|
    ensures (garbage + j)[a..n] + (garbage + j)[n..|garbage| + m] == garbage[a..] + j[..m]
  {
    var s := garbage + j;
    assert s[a..n] + s[n..|garbage| + m] == s[a..|garbage| + m];
  }

  lemma PrefixChunk(stream: seq<byte>, front: seq<byte>, last: seq<byte>)
    requires front + last <= stream
    ensures front <= stream && |front| + |last| <= |stream| && last == stream[|front|..|front| + |last|]
  {
    LastChunk(stream, front, last);
  }

  /** After n bytes: searching with p bytes buffered, or in step with the stream. */
  ghost predicate Tracks(garbage: seq<byte>, frames: seq<seq<byte>>, n: nat, p: nat, r: Receiver) {
    if n < |garbage| + 4 then Searching(garbage, Join(frames), n, p, r) else InStep(frames, n - |garbage|, r)
  }

  lemma TrackRead(capacity: nat, garbage: seq<byte>, frames: seq<seq<byte>>, st: Receiver, n: nat, p: nat,
                  chunk: seq<byte>)
    requires capacity >= OVERHEAD && frames != [] && AllDeliverable(capacity, frames) && Leading(garbage, Join(frames))
    requires NextBytes(garbage, frames, n, chunk) && |st.buffer| + |chunk| <= capacity
             && Tracks(garbage, frames, n, p, st)
    requires |garbage| < n + |chunk| < |garbage| + 4 ==> p + |chunk| < 4
    ensures Tracks(garbage, frames, n + |chunk|, if p + |chunk| < 4 then p + |chunk| else 0,
                   ReadStep(CoLaB, capacity, st, chunk))
  {
    hide Searching, Leading, InStep, ReadStep, Join, AllDeliverable, NextBytes, Behind;
    if n + |chunk| < |garbage| + 4 {
      SearchRead(capacity, garbage, frames, st, n, p, chunk);
    } else {
      StepRead(capacity, garbage, frames, st, n, p, chunk);
    }
  }

  /** While no read breaks the magic word, the receiver searches for it, and behind it is in step with the stream. */
  lemma {:induction false} ReadsBehindGarbage(capacity: nat, garbage: seq<byte>, frames: seq<seq<byte>>,
                                              chunks: seq<seq<byte>>)
    requires capacity >= OVERHEAD && frames != [] && AllDeliverable(capacity, frames) && Leading(garbage, Join(frames))
    requires Received(capacity, garbage, frames, chunks) && KeepsMagic(|garbage|, chunks)
    ensures Tracks(garbage, frames, |Concat(chunks)|, Pending(chunks), ReadRun(CoLaB, capacity, Idle, chunks))
    decreases |chunks|
  {
    hide Drain, ReadStep, Frames, Flatten, Leading, AllDeliverable, Complete, Unfinished;
    if chunks == [] {
      NoReads(capacity, |garbage|);
      SearchStarts(garbage, frames);
    } else {
      var front, last := chunks[..|chunks| - 1], chunks[|chunks| - 1];
      LastRead(capacity, garbage, frames, chunks);
      ReadsBehindGarbage(capacity, garbage, frames, front);
      TrackRead(capacity, garbage, frames, ReadRun(CoLaB, capacity, Idle, front), |Concat(front)|, Pending(front),
                last);
    }
  }

  lemma SearchStarts(garbage: seq<byte>, frames: seq<seq<byte>>)
    ensures Tracks(garbage, frames, 0, 0, Idle)
  {
    LogNone();
  }

  // ---- reads that lose ----

  /** Frames hold no more bytes than the log they come from. */
  lemma {:induction false} FramesWithinLog(log: seq<Segment>)
    ensures |Join(Frames(log))| <= |Flatten(log)|
  {
    if log != [] {
      FramesWithinLog(log[..|log| - 1]);
      if log[|log| - 1].Emitted? {
        JoinAppend(Frames(log[..|log| - 1]), log[|log| - 1].bytes);
      } else {
        assert Frames(log) == Frames(log[..|log| - 1]);
      }
    }
  }

  lemma {:induction false} JoinConcat(a: seq<seq<byte>>, b: seq<seq<byte>>)
    ensures Join(a + b) == Join(a) + Join(b)
  {
    if b == [] {
      assert a + b == a;
    } else {
      var front, last := b[..|b| - 1], b[|b| - 1];
      JoinConcat(a, front);
      JoinAppend(a + front, last);
      JoinAppend(front, last);
      assert a + front + [last] == a + b && front + [last] == b;
    }
  }

  /** A read cannot make up for bytes lost before. */
  lemma StaysBehind(capacity: nat, streamed: int, st: Receiver, chunk: seq<byte>)
    requires capacity >= OVERHEAD && Behind(streamed, st) && chunk != [] && |st.buffer| + |chunk| <= capacity
    ensures Behind(streamed + |chunk|, ReadStep(CoLaB, capacity, st, chunk))
  {
    hide Drain, Frames, Flatten, Join;
    if !st.spinning {
      assert chunk[..|chunk|] == chunk;
      ReadStepLog(CoLaB, capacity, st, chunk);
      var d := Drain(CoLaB, capacity, st.buffer + chunk);
      JoinConcat(Frames(st.log), Frames(d.log));
      DrainConserves(CoLaB, capacity, st.buffer + chunk);
      FramesWithinLog(d.log);
    }
  }

  /** The read that breaks the magic word gives up bytes of the stream. */
  lemma BreakingRead(capacity: nat, garbage: seq<byte>, frames: seq<seq<byte>>, st: Receiver, n: nat, p: nat,
                     chunk: seq<byte>)
    requires capacity >= OVERHEAD && Leading(garbage, Join(frames)) && Tracks(garbage, frames, n, p, st)
    requires NextBytes(garbage, frames, n, chunk) && |st.buffer| + |chunk| <= capacity
    requires |garbage| < n + |chunk| < |garbage| + 4 && p + |chunk| >= 4
    ensures Behind(n + |chunk| - |garbage|, ReadStep(CoLaB, capacity, st, chunk))
  {
    hide Searching, Leading, InStep, ReadStep, Join, NextBytes, Behind;
    SearchRead(capacity, garbage, frames, st, n, p, chunk);
  }

  lemma {:induction false} BrokenMagicLoses(capacity: nat, garbage: seq<byte>, frames: seq<seq<byte>>,
                                            chunks: seq<seq<byte>>)
    requires capacity >= OVERHEAD && frames != [] && AllDeliverable(capacity, frames) && Leading(garbage, Join(frames))
    requires Received(capacity, garbage, frames, chunks) && !KeepsMagic(|garbage|, chunks)
    ensures Behind(|Concat(chunks)| - |garbage|, ReadRun(CoLaB, capacity, Idle, chunks))
    decreases |chunks|
  {
    hide Drain, ReadStep, Frames, Flatten, Leading, AllDeliverable, Tracks, Join;
    var front, last := chunks[..|chunks| - 1], chunks[|chunks| - 1];
    LastRead(capacity, garbage, frames, chunks);
    var st := ReadRun(CoLaB, capacity, Idle, front);
    if KeepsMagic(|garbage|, front) {
      ReadsBehindGarbage(capacity, garbage, frames, front);
      BreakingRead(capacity, garbage, frames, st, |Concat(front)|, Pending(front), last);
    } else {
      BrokenMagicLoses(capacity, garbage, frames, front);
      LateRead(capacity, garbage, frames, st, |Concat(front)|, last);
    }
  }

  lemma LateRead(capacity: nat, garbage: seq<byte>, frames: seq<seq<byte>>, st: Receiver, n: nat, chunk: seq<byte>)
    requires capacity >= OVERHEAD && Behind(n - |garbage|, st) && NextBytes(garbage, frames, n, chunk)
             && |st.buffer| + |chunk| <= capacity
    ensures Behind(n + |chunk| - |garbage|, ReadStep(CoLaB, capacity, st, chunk))
  {
    hide Behind, ReadStep, Join;
    StaysBehind(capacity, n - |garbage|, st, chunk);
  }

  /**
   A stream of frames behind garbage, split into any fitting reads: all frames are recovered if and only if no read that
   ends inside the first magic word leaves four or more bytes in the buffer.
   */
  lemma ResyncExactly(capacity: nat, garbage: seq<byte>, frames: seq<seq<byte>>, chunks: seq<seq<byte>>)
    requires capacity >= OVERHEAD && frames != [] && AllDeliverable(capacity, frames) && Leading(garbage, Join(frames))
    requires Fitting(CoLaB, capacity, chunks) && Concat(chunks) == garbage + Join(frames)
    ensures Delivers(frames, ReadRun(CoLaB, capacity, Idle, chunks)) <==> KeepsMagic(|garbage|, chunks)
  {
    hide Drain, ReadStep, Frames, Leading, AllDeliverable, InStep, KeepsMagic;
    JoinAtLeastFour(capacity, frames);
    if KeepsMagic(|garbage|, chunks) {
      ReadsBehindGarbage(capacity, garbage, frames, chunks);
      InStepAtEnd(frames, ReadRun(CoLaB, capacity, Idle, chunks));
    } else {
      BrokenMagicLoses(capacity, garbage, frames, chunks);
    }
  }

  /**
   Two reads, split at byte k: the stream is lost exactly if the first has at least four bytes and ends inside the
   magic word.
   */
  lemma TwoReadsKeep(garbage: nat, a: seq<byte>, b: seq<byte>)
    requires a != [] && |a| + |b| >= garbage + 4
    ensures KeepsMagic(garbage, [a, b]) <==> |a| < 4 || |a| <= garbage || garbage + 4 <= |a|
  {
    assert [a, b][..1] == [a] && [a][..0] == [];
    assert Concat([a]) == [] + a == a && Concat([a, b]) == a + b;
    assert KeepsMagic(garbage, []);
  }
}
