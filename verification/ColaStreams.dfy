/** What the receiver delivers for a whole byte stream, however the network splits it into reads. */
module ColaStreams {
  import opened Bytes
  import opened ColaFraming

  function Concat(chunks: seq<seq<byte>>): seq<byte> {
    if chunks == [] then [] else Concat(chunks[..|chunks| - 1]) + chunks[|chunks| - 1]
  }

  /** Every read is nonempty and fits behind the bytes still buffered. */
  predicate Fitting(protocol: Protocol, capacity: nat, chunks: seq<seq<byte>>)
    requires capacity >= OVERHEAD
  {
    chunks != [] ==>
      var front := chunks[..|chunks| - 1];
      var last := chunks[|chunks| - 1];
      && Fitting(protocol, capacity, front)
      && last != []
      && |ReadRun(protocol, capacity, Idle, front).buffer| + |last| <= capacity
  }

  // ---- CoLa-A: a byte-at-a-time decoder as reference ----

  datatype Decoded = Decoded(frames: seq<seq<byte>>, pending: seq<byte>)

  const Start: Decoded := Decoded([], [])

  /** Outside a frame everything but STX is skipped; inside, bytes are collected up to ETX. */
  function FeedByte(d: Decoded, b: byte): Decoded {
    if d.pending == [] then
      if b == STX then d.(pending := [b]) else d
    else if b == ETX then Decoded(d.frames + [d.pending + [b]], [])
    else d.(pending := d.pending + [b])
  }

  function Feed(d: Decoded, s: seq<byte>): Decoded {
    if s == [] then d else FeedByte(Feed(d, s[..|s| - 1]), s[|s| - 1])
  }

  lemma FeedOne(d: Decoded, b: byte)
    ensures Feed(d, [b]) == FeedByte(d, b)
  {
    assert [b][..0] == [];
  }

  lemma {:induction false} FeedAppend(d: Decoded, s: seq<byte>, t: seq<byte>)
    ensures Feed(d, s + t) == Feed(Feed(d, s), t)
  {
    if t == [] {
      assert s + t == s;
    } else {
      var front := t[..|t| - 1];
      FeedAppend(d, s, front);
      assert (s + t)[..|s + t| - 1] == s + front;
    }
  }

  lemma {:induction false} FeedSkips(d: Decoded, s: seq<byte>)
    requires d.pending == [] && STX !in s
    ensures Feed(d, s) == d
  {
    if s != [] {
      FeedSkips(d, s[..|s| - 1]);
    }
  }

  lemma {:induction false} FeedCollects(d: Decoded, s: seq<byte>)
    requires d.pending != [] && ETX !in s
    ensures Feed(d, s) == d.(pending := d.pending + s)
  {
    if s != [] {
      FeedCollects(d, s[..|s| - 1]);
      assert d.pending + s == d.pending + s[..|s| - 1] + [s[|s| - 1]];
    }
  }

  /** Frames already complete play no part in what follows. */
  lemma {:induction false} FeedFrames(frames: seq<seq<byte>>, pending: seq<byte>, s: seq<byte>)
    ensures var d := Feed(Decoded([], pending), s);
            Feed(Decoded(frames, pending), s) == Decoded(frames + d.frames, d.pending)
  {
    if s != [] {
      FeedFrames(frames, pending, s[..|s| - 1]);
    }
  }

  /** STX, then anything but ETX: an unfinished frame; with ETX behind it, one frame. */
  lemma FeedFrame(open: seq<byte>)
    requires open != [] && open[0] == STX && ETX !in open
    ensures Feed(Start, open) == Decoded([], open)
    ensures Feed(Start, open + [ETX]) == Decoded([open + [ETX]], [])
  {
    FeedOne(Start, STX);
    FeedAppend(Start, [STX], open[1..]);
    assert [STX] + open[1..] == open;
    FeedCollects(Decoded([], [STX]), open[1..]);
    FeedAppend(Start, open, [ETX]);
    FeedOne(Decoded([], open), ETX);
  }

  /** What the CoLa-A search tells about its buffer. */
  lemma FindAShape(buf: seq<byte>)
    ensures var s := FindA(buf);
            && STX !in buf[..s.drop]
            && (s.found.Frame? ==>
                  var frame := buf[s.drop..][..s.found.len];
                  frame[0] == STX && ETX !in frame[..s.found.len - 1] && frame[s.found.len - 1] == ETX)
            && (s.found.NoFrame? && s.drop < |buf| ==> buf[s.drop] == STX && ETX !in buf[s.drop..])
  {
    IndexFromIsFirst(buf, STX, 0);
    var start := IndexFrom(buf, STX, 0);
    if start < |buf| {
      IndexFromIsFirst(buf, ETX, start + 1);
    }
  }

  lemma FeedSkipped(buf: seq<byte>, drop: nat)
    requires drop <= |buf| && STX !in buf[..drop]
    ensures Feed(Start, buf) == Feed(Start, buf[drop..])
  {
    hide Feed;
    FeedSkips(Start, buf[..drop]);
    FeedAppend(Start, buf[..drop], buf[drop..]);
    assert buf[..drop] + buf[drop..] == buf;
  }

  lemma FrameThenRest(skipped: seq<byte>, frame: seq<byte>, rest: seq<byte>)
    requires STX !in skipped
    requires |frame| >= 2 && frame[0] == STX && ETX !in frame[..|frame| - 1] && frame[|frame| - 1] == ETX
    ensures var d := Feed(Start, rest);
            Feed(Start, skipped + frame + rest) == Decoded([frame] + d.frames, d.pending)
  {
    var open := frame[..|frame| - 1];
    assert open + [ETX] == frame;
    FeedFrame(open);
    FeedSkips(Start, skipped);
    FeedAppend(Start, skipped, frame);
    FeedAppend(Start, skipped + frame, rest);
    FeedFrames([frame], [], rest);
  }

  lemma TailRefines(buf: seq<byte>, drop: nat)
    requires FindA(buf) == Scan(drop, NoFrame)
    ensures Feed(Start, buf) == Decoded([], buf[drop..])
  {
    FindAShape(buf);
    FeedSkipped(buf, drop);
    if drop < |buf| {
      FeedFrame(buf[drop..]);
    }
  }

  lemma HeadRefines(buf: seq<byte>, drop: nat, len: nat)
    requires FindA(buf) == Scan(drop, Frame(len))
    ensures var d := Feed(Start, buf[drop..][len..]);
            Feed(Start, buf) == Decoded([buf[drop..][..len]] + d.frames, d.pending)
  {
    FindAShape(buf);
    FrameThenRest(buf[..drop], buf[drop..][..len], buf[drop..][len..]);
    assert buf[..drop] + buf[drop..][..len] + buf[drop..][len..] == buf;
  }

  /** The search-and-shift loop computes what the byte-at-a-time decoder computes. */
  lemma {:induction false} DrainRefinesFeed(capacity: nat, buf: seq<byte>)
    requires capacity >= OVERHEAD
    ensures var r := Drain(CoLaA, capacity, buf);
            Feed(Start, buf) == Decoded(Frames(r.log), r.buffer) && !r.spinning
    decreases |buf|
  {
    match FindA(buf)
    case Scan(drop, NoFrame) =>
      TailRefines(buf, drop);
      DiscardLog(buf[..drop]);
    case Scan(drop, Frame(len)) =>
      DrainRefinesFeed(capacity, buf[drop..][len..]);
      HeadRefines(buf, drop, len);
      RoundLog(buf[..drop], buf[drop..][..len], Drain(CoLaA, capacity, buf[drop..][len..]).log);
  }

  /** A buffer left by the loop holds nothing, or one unfinished frame. */
  ghost predicate Settled(pending: seq<byte>) {
    pending == [] || (pending[0] == STX && ETX !in pending)
  }

  lemma {:induction false} FeedSettles(d: Decoded, s: seq<byte>)
    requires Settled(d.pending)
    ensures Settled(Feed(d, s).pending)
  {
    if s != [] {
      FeedSettles(d, s[..|s| - 1]);
    }
  }

  lemma FeedSettled(pending: seq<byte>)
    requires Settled(pending)
    ensures Feed(Start, pending) == Decoded([], pending)
  {
    if pending != [] {
      FeedFrame(pending);
    }
  }

  /** A read that is taken whole does to a settled receiver what the decoder does. */
  lemma ReadRefinesFeed(capacity: nat, st: Receiver, chunk: seq<byte>)
    requires capacity >= OVERHEAD && |st.buffer| + |chunk| <= capacity
    requires chunk != [] && !st.spinning && Settled(st.buffer)
    ensures var r := ReadStep(CoLaA, capacity, st, chunk);
            Decoded(Frames(r.log), r.buffer) == Feed(Decoded(Frames(st.log), st.buffer), chunk) && !r.spinning
  {
    var input := st.buffer + chunk;
    assert chunk[..|chunk|] == chunk;
    ReadStepLog(CoLaA, capacity, st, chunk);
    DrainRefinesFeed(capacity, input);
    FeedSettled(st.buffer);
    FeedAppend(Start, st.buffer, chunk);
    FeedFrames(Frames(st.log), st.buffer, chunk);
  }

  /**
   Chunking is not observable with CoLa-A: for every stream, garbage included, and every split
   into fitting reads, the queue and the bytes left over are those of the decoder run on the
   whole stream.
   */
  lemma {:induction false} ChunkingUnobservable(capacity: nat, chunks: seq<seq<byte>>)
    requires capacity >= OVERHEAD && Fitting(CoLaA, capacity, chunks)
    ensures var r := ReadRun(CoLaA, capacity, Idle, chunks);
            Decoded(Frames(r.log), r.buffer) == Feed(Start, Concat(chunks)) && !r.spinning
  {
    if chunks != [] {
      var front, last := chunks[..|chunks| - 1], chunks[|chunks| - 1];
      ChunkingUnobservable(capacity, front);
      var before := ReadRun(CoLaA, capacity, Idle, front);
      FeedSettles(Start, Concat(front));
      ReadRefinesFeed(capacity, before, last);
      FeedAppend(Start, Concat(front), last);
    }
  }

  /** One read agrees with the decoder. */
  ghost predicate ReadAgrees(capacity: nat, pending: seq<byte>, chunk: seq<byte>)
    requires capacity >= OVERHEAD && |pending| <= capacity
  {
    var r := ReadStep(CoLaA, capacity, Receiver([], pending, false), chunk);
    Decoded(Frames(r.log), r.buffer) == Feed(Decoded([], pending), chunk)
  }

  /**
   The side condition is exact: reads of n bytes agree with the decoder whatever they hold if and
   only if they fit and are nonempty, or are empty on an empty buffer.
   */
  lemma FittingIsExact(capacity: nat, pending: seq<byte>, n: nat)
    requires capacity >= OVERHEAD && |pending| <= capacity && Settled(pending)
    ensures (forall chunk: seq<byte> :: |chunk| == n ==> ReadAgrees(capacity, pending, chunk))
            <==> (if n == 0 then pending == [] else |pending| + n <= capacity)
  {
    var st := Receiver([], pending, false);
    if n == 0 {
      EmptyReadClears(capacity, pending);
    } else if |pending| + n <= capacity {
      forall chunk: seq<byte> | |chunk| == n
        ensures ReadAgrees(capacity, pending, chunk)
      {
        ReadRefinesFeed(capacity, st, chunk);
      }
    } else {
      var filler := seq(n - 1, _ => 0);
      TruncatedReadDiffers(capacity, pending, filler, if pending == [] then STX else ETX);
    }
  }

  lemma EmptyReadClears(capacity: nat, pending: seq<byte>)
    requires capacity >= OVERHEAD && |pending| <= capacity
    ensures ReadAgrees(capacity, pending, []) <==> pending == []
    ensures forall chunk: seq<byte> :: |chunk| == 0 ==> chunk == []
  {
    DiscardLog(pending);
    assert [] + Discard(pending) == Discard(pending);
  }

  /** A read cut off within bytes that are neither STX nor ETX completes nothing and starts nothing. */
  lemma CutReadStays(capacity: nat, pending: seq<byte>, chunk: seq<byte>)
    requires capacity >= OVERHEAD && |pending| <= capacity && Settled(pending)
    requires |pending| + |chunk| > capacity && chunk != []
    requires var taken := chunk[..capacity - |pending|]; STX !in taken && ETX !in taken
    ensures var r := ReadStep(CoLaA, capacity, Receiver([], pending, false), chunk);
            Frames(r.log) == [] && (pending == [] ==> r.buffer == [])
  {
    hide Drain, Feed, Flatten;
    var taken := chunk[..capacity - |pending|];
    ReadStepLog(CoLaA, capacity, Receiver([], pending, false), chunk);
    if taken != [] {
      DrainRefinesFeed(capacity, pending + taken);
      FeedSettled(pending);
      FeedAppend(Start, pending, taken);
      if pending == [] {
        FeedSkips(Start, taken);
      } else {
        FeedCollects(Decoded([], pending), taken);
      }
    }
  }

  lemma TruncatedReadDiffers(capacity: nat, pending: seq<byte>, filler: seq<byte>, end: byte)
    requires capacity >= OVERHEAD && |pending| <= capacity && Settled(pending)
    requires |pending| + |filler| + 1 > capacity && STX !in filler && ETX !in filler
    requires end == if pending == [] then STX else ETX
    ensures |filler + [end]| == |filler| + 1 && !ReadAgrees(capacity, pending, filler + [end])
  {
    var taken := filler[..capacity - |pending|];
    assert (filler + [end])[..capacity - |pending|] == taken;
    CutReadStays(capacity, pending, filler + [end]);
    FeedAppend(Decoded([], pending), filler, [end]);
    if pending == [] {
      FeedSkips(Start, filler);
    } else {
      FeedCollects(Decoded([], pending), filler);
    }
    FeedOne(Feed(Decoded([], pending), filler), end);
  }
}
