/** The two-pass LMDscandata channel parser, working in place on the receive buffer. */
module LmdParser {
  import opened Arithmetic
  import opened Bytes
  import opened Fields
  import opened LmdTelegram
  import opened LmdWalk

  datatype ChannelHead = ChannelHead(task: Task, scale: nat, offset: nat, startAngle: nat, step: nat,
                                     numberOfItems: int)

  ghost function HeadOf(c: Channel): ChannelHead
    requires |c.samples| < 0x1_0000
  {
    ChannelHead(TaskOf(c.name), c.scale, c.offset, Word(c.startAngle), c.step, ToShort(|c.samples|))
  }

  method ReadChannelHead(buf: array<byte>, parseOff: nat, ghost c: Channel, ghost w: sampleWidth)
    returns (h: ChannelHead)
    requires ChannelOk(c, w) && At(buf[..], parseOff, Encode(c, w))
    ensures h == HeadOf(c)
  {
    HeaderFields(buf[..], parseOff, c, w);
    assert forall lo, hi :: 0 <= lo <= hi <= buf.Length ==> buf[..][lo..hi] == buf[lo..hi];
    var task := TaskOf(buf[parseOff..parseOff + 5]);
    var scale := ReadSwapped(buf, parseOff + 5, 4);
    var offset := ReadSwapped(buf, parseOff + 9, 4);
    var startAngle := ReadSwapped(buf, parseOff + 13, 4);
    var step := ReadSwapped(buf, parseOff + 17, 2);
    var items := ReadSwapped(buf, parseOff + 19, 2);
    h := ChannelHead(task, scale, offset, startAngle, step, ToShort(items));
  }

  /** The name of channel j, or Idle when all channels have been seen. */
  ghost function TaskAt(t: Telegram, j: nat): Task {
    if j < |All(t)| then TaskOf(All(t)[j].name) else Idle
  }

  /** Reads a channel name at the walk's position. */
  method ReadTask(buf: array<byte>, parseOff: nat, more: bool, ghost t: Telegram, ghost j: nat) returns (task: Task)
    requires j <= |All(t)| && more == (j < |All(t)|)
    requires more ==> ChannelOk(All(t)[j], WidthAt(t, j)) && At(buf[..], parseOff, Encode(All(t)[j], WidthAt(t, j)))
    ensures task == TaskAt(t, j)
  {
    task := Idle;
    if more {
      HeaderFields(buf[..], parseOff, All(t)[j], WidthAt(t, j));
      assert buf[..][parseOff..parseOff + 5] == buf[parseOff..parseOff + 5];
      task := TaskOf(buf[parseOff..parseOff + NAME_LENGTH]);
    }
  }

  // ---- the fill pass ----

  lemma MiddleReplaced(before: seq<byte>, after: seq<byte>, start: nat, middle: seq<byte>)
    requires |after| == |before| && start + |middle| <= |before|
    requires forall p :: 0 <= p < start || start + |middle| <= p < |before| ==> after[p] == before[p]
    requires forall p :: start <= p < start + |middle| ==> after[p] == middle[p - start]
    ensures after == before[..start] + middle + before[start + |middle|..]
  {
  }

  /** Swaps the bytes of each two-byte sample in place. */
  method SwapSamples(buf: array<byte>, start: nat, numberOfItems: nat, ghost samples: seq<u16>)
    requires |samples| == numberOfItems && At(buf[..], start, WideBytes(samples, true))
    modifies buf
    ensures buf[..] == old(buf[..start]) + WideBytes(samples, false) + old(buf[start + 2 * numberOfItems..])
  {
    hide WideBytes, At;
    ghost var wire, host, before := WideBytes(samples, true), WideBytes(samples, false), buf[..];
    AtIndex(before, start, wire);
    var i := 0;
    while i < numberOfItems * 2
      invariant 0 <= i <= numberOfItems * 2 && i % 2 == 0
      invariant forall p :: 0 <= p < start || start + 2 * numberOfItems <= p < buf.Length ==> buf[p] == before[p]
      invariant forall p :: start <= p < start + i ==> buf[p] == host[p - start]
      invariant forall p :: start + i <= p < start + 2 * numberOfItems ==> buf[p] == wire[p - start]
    {
      PairSwapped(samples, i / 2);
      var tmp := buf[start + i + 1];
      buf[start + i + 1] := buf[start + i];
      buf[start + i] := tmp;
      i := i + 2;
    }
    MiddleReplaced(before, buf[..], start, host);
    assert before[..start] == old(buf[..start]);
    assert before[start + 2 * numberOfItems..] == old(buf[start + 2 * numberOfItems..]);
  }

  /** Overwrites a block with the scaled samples of one channel. */
  method StoreScaled(dst: array<real>, base: nat, buf: array<byte>, start: nat, bytes: sampleWidth,
                     factor: real, offset: real, ghost samples: seq<u16>, numberOfItems: nat)
    requires |samples| == numberOfItems && DataIs(buf[..], start, bytes, samples)
    requires base + numberOfItems <= dst.Length
    modifies dst
    ensures dst[..] == Overwrite(old(dst[..]), base, Scaled(samples, factor, offset))
  {
    hide DataIs;
    ghost var values, was := Scaled(samples, factor, offset), dst[..];
    var i := 0;
    while i < numberOfItems
      invariant 0 <= i <= numberOfItems
      invariant forall p :: 0 <= p < dst.Length && !(base <= p < base + i) ==> dst[p] == was[p]
      invariant forall p :: base <= p < base + i ==> dst[p] == values[p - base]
    {
      var data := ReadSample(buf, start, i, bytes, samples);
      dst[base + i] := data as real * factor + offset;
      i := i + 1;
    }
    assert dst[..] == was[..base] + values + was[base + numberOfItems..];
  }

  method ReadSample(buf: array<byte>, start: nat, i: nat, bytes: sampleWidth, ghost samples: seq<u16>)
    returns (value: nat)
    requires i < |samples| && DataIs(buf[..], start, bytes, samples)
    ensures value == samples[i]
  {
    ghost var seen := DataAt(buf[..], start, i, bytes);
    if bytes == 2 {
      var low: nat, high: nat := buf[start + 2 * i], buf[start + 2 * i + 1];
      value := low + 256 * high;
    } else {
      value := buf[start + i];
    }
    assert value == seen;
  }

  /** Swaps the samples of channel j of the walk, if they have two bytes. */
  method BringToHostOrder(buf: array<byte>, start: nat, bytes: sampleWidth, numberOfItems: nat,
                          ghost t: Telegram, ghost j: nat, ghost received: seq<byte>)
    requires TelegramOk(t) && j < |All(t)| && At(received, Start(t, j), Rest(t, j))
    requires HostUpTo(t, j, received, buf[..])
    requires start == HeadStart(t, j) + CHANNEL_HEADER && bytes == WidthAt(t, j)
    requires numberOfItems == |All(t)[j].samples|
    modifies buf
    ensures HostUpTo(t, j + 1, received, buf[..])
    ensures At(buf[..], start, HostBytes(All(t)[j].samples, bytes))
  {
    hide Rest, At, Before, Encode, HostUpTo, WideBytes, NarrowBytes;
    ghost var c := All(t)[j];
    ghost var before := buf[..];
    ChannelAt(received, t, j);
    UnreadSame(t, j, received, before, HeadStart(t, j), Encode(c, bytes));
    HeaderFields(before, HeadStart(t, j), c, bytes);
    AtSlice(before, start, SampleBytes(c.samples, bytes));
    if bytes == 2 {
      SwapSamples(buf, start, numberOfItems, c.samples);
      assert before[..start] == old(buf[..start])
             && before[start + 2 * numberOfItems..] == old(buf[start + 2 * numberOfItems..]);
    } else {
      assert before == before[..start] + before[start..start + numberOfItems] + before[start + numberOfItems..];
    }
    ghost var host := HostBytes(c.samples, bytes);
    assert buf[..] == before[..start] + host + before[start + bytes * numberOfItems..];
    HostStep(t, j, received, before, buf[..]);
    AtMiddle(before[..start], host, before[start + bytes * numberOfItems..]);
  }

  /** After that the buffer holds the samples as the parser sees them. */
  lemma SeenInBuffer(t: Telegram, j: nat, received: seq<byte>, buf: seq<byte>)
    requires TelegramOk(t) && At(received, 0, TelegramBytes(t)) && j < Walked(t, 0) && ReadsInside(t, |received|)
    requires HostUpTo(t, j + 1, received, buf)
    requires At(buf, DataStart(t, j), HostBytes(All(t)[j].samples, WidthAt(t, j)))
    ensures DataIs(buf, DataStart(t, j), ReadWidth(TaskOf(All(t)[j].name), WidthAt(t, j)), SeenSamples(t, received, j))
  {
    hide TelegramBytes, At, HostUpTo, HostBytes, TaskOf, SwappedFrom, DataIs, DataStart, TelegramOk;
    var c := All(t)[j];
    ChannelOkAt(t, j);
    if j < |t.wide| || ReadWidth(TaskOf(c.name), 1) == 1 {
      HostDataIs(buf, DataStart(t, j), WidthAt(t, j), c.samples);
    } else {
      NarrowPairs(t, j, received, buf);
    }
  }

  lemma ChannelOkAt(t: Telegram, j: nat)
    requires TelegramOk(t) && j < |All(t)|
    ensures ChannelOk(All(t)[j], WidthAt(t, j))
  {
  }

  /** Pairs of bytes read from an 8-bit channel are as received. */
  lemma NarrowPairs(t: Telegram, j: nat, received: seq<byte>, buf: seq<byte>)
    requires TelegramOk(t) && At(received, 0, TelegramBytes(t)) && |t.wide| <= j < Walked(t, 0)
             && ReadsInside(t, |received|)
    requires HostUpTo(t, j + 1, received, buf) && ReadWidth(TaskOf(All(t)[j].name), 1) == 2
    ensures DataIs(buf, DataStart(t, j), 2, SeenSamples(t, received, j))
  {
    hide TelegramBytes, At, HostUpTo, TaskOf, SwappedFrom, DataStart, TelegramOk, All, ReadWidth;
    var start, samples := DataStart(t, j), SeenSamples(t, received, j);
    assert start + 2 * |samples| <= |received|;
    HostUpToLength(t, j + 1, received, buf);
    forall i | 0 <= i < |samples|
      ensures start + 2 * (i + 1) <= |buf| && DataAt(buf, start, i, 2) == samples[i]
    {
      NarrowByte(t, j, received, buf, start + 2 * i);
      NarrowByte(t, j, received, buf, start + 2 * i + 1);
    }
  }

  lemma HostUpToLength(t: Telegram, j: nat, received: seq<byte>, buf: seq<byte>)
    requires j <= |All(t)| && HostUpTo(t, j, received, buf)
    ensures |buf| == |received|
  {
  }

  lemma NarrowByte(t: Telegram, j: nat, received: seq<byte>, buf: seq<byte>, p: nat)
    requires TelegramOk(t) && At(received, 0, TelegramBytes(t)) && |t.wide| <= j < |All(t)|
    requires HostUpTo(t, j + 1, received, buf) && DataStart(t, j) <= p < |received|
    ensures |buf| == |received| && buf[p] == received[p]
  {
    hide TelegramBytes, At, TelegramOk, HostUpTo, Start, SwappedFrom;
    HostUpToLength(t, j + 1, received, buf);
    StartMonotone(t, |t.wide|, j);
    HostUpToExactly(t, j + 1, received, buf, p);
    NarrowStays(t, j + 1, p);
  }

  /** Stores the azimuth angles of one channel. */
  method StoreAzimuth(dst: array<real>, buf: array<byte>, start: nat, bytes: sampleWidth, h: ChannelHead,
                      ghost c: Channel, float: nat -> real, pi: real, shift: real)
    requires |c.samples| < SHORT_RANGE && DataIs(buf[..], start, bytes, c.samples) && h == HeadOf(c)
    requires dst.Length == |c.samples|
    modifies dst
    ensures dst[..] == AzimuthValues(c, float, pi, shift)
  {
    hide DataIs, AzimuthValue;
    var scaleFactor, scaleFactorOffset := float(h.scale), float(h.offset);
    ghost var values := AzimuthValues(c, float, pi, shift);
    var i := 0;
    while i < h.numberOfItems
      invariant 0 <= i <= h.numberOfItems
      invariant forall p :: 0 <= p < i ==> dst[p] == values[p]
    {
      var data := ReadSample(buf, start, i, bytes, c.samples);
      dst[i] := AzimuthValue(Signed(h.startAngle), h.step, data, i, scaleFactor, scaleFactorOffset, pi, shift);
      i := i + 1;
    }
  }

  /** std::vector::resize: what fits stays, new elements are zero. */
  function Resized(s: seq<real>, size: nat): (r: seq<real>)
    ensures |r| == size
  {
    seq(size, i requires 0 <= i => if i < |s| then s[i] else 0.0)
  }

  method ResizeVector(was: array<real>, size: nat) returns (v: array<real>)
    ensures fresh(v) && v[..] == Resized(was[..], size)
  {
    v := new real[size](i requires 0 <= i reads was => if i < was.Length then was[i] else 0.0);
  }

  /** A size that is not negative. */
  function Product(numberOfItems: int, count: nat): (size: nat)
    requires numberOfItems >= 0 || count == 0
    ensures size == (if numberOfItems < 0 then 0 else numberOfItems) * count
  {
    if count == 0 then 0
    else
      ProductNonNegative(numberOfItems, count);
      numberOfItems * count
  }

  /** The arrays the parser fills: a block of values per channel. */
  class ScanOutput {
    var ranges: array<real>
    var intensities: array<real>
    var vang: array<real>
    var azimuth: array<real>

    constructor ()
      ensures Separate() && fresh({ranges, intensities, vang, azimuth})
    {
      ranges, intensities, vang, azimuth := new real[0], new real[0], new real[0], new real[0];
    }

    /** The four arrays are different objects. */
    ghost predicate Separate()
      reads this
    {
      ranges != intensities && vang !in {ranges, intensities} && azimuth !in {ranges, intensities, vang}
    }

    /** The arrays after these channels, from the contents the pass started with. */
    ghost predicate Filled(cs: seq<Channel>, ranges0: seq<real>, intensities0: seq<real>, float: nat -> real, pi: real,
                           shift: real)
      reads this, ranges, intensities, vang, azimuth
    {
      && BlocksInside(Dist, cs, |ranges0|) && ranges[..] == StoredBlocks(Dist, cs, ranges0, float)
      && BlocksInside(Rssi, cs, |intensities0|) && intensities[..] == StoredBlocks(Rssi, cs, intensities0, float)
      && LastVang(cs, vang[..], float)
      && LastAzimuth(cs, azimuth[..], float, pi, shift)
    }

    /** Stores what one channel of the walk holds; the counters already include it. */
    method StoreChannel(buf: array<byte>, start: nat, bytes: sampleWidth, h: ChannelHead, distChannelCnt: nat,
                        rssiCnt: nat, float: nat -> real, pi: real, shift: real,
                        ghost cs: seq<Channel>, ghost j: nat, ghost ranges0: seq<real>, ghost intensities0: seq<real>)
      requires j < |cs| && |cs[j].samples| < SHORT_RANGE && h == HeadOf(cs[j]) && h.task != Idle
      requires DataIs(buf[..], start, ReadWidth(h.task, bytes), cs[j].samples)
      requires distChannelCnt == Count(Dist, cs[..j + 1]) && rssiCnt == Count(Rssi, cs[..j + 1])
      requires BlocksInside(Dist, cs[..j + 1], |ranges0|) && BlocksInside(Rssi, cs[..j + 1], |intensities0|)
      requires Separate() && Filled(cs[..j], ranges0, intensities0, float, pi, shift)
      modifies `vang, `azimuth, ranges, intensities
      ensures Separate() && fresh({vang, azimuth} - old({vang, azimuth}))
      ensures h.task != Vang ==> vang == old(vang)
      ensures h.task != Azimuth ==> azimuth == old(azimuth)
      ensures Filled(cs[..j + 1], ranges0, intensities0, float, pi, shift)
    {
      hide DataIs, Count, BlocksInside, StoredBlocks, Overwrite, LastVang, LastAzimuth, TaskOf, Scaled, AzimuthValues;
      ghost var c := cs[j];
      var n := h.numberOfItems;
      var scaleFactor, scaleFactorOffset := float(h.scale), float(h.offset);
      StoredMore(Dist, cs, j, ranges0, float);
      StoredMore(Rssi, cs, j, intensities0, float);
      match h.task {
        case Dist =>
          StoreScaled(ranges, n * (distChannelCnt - 1), buf, start, 2, 0.001 * scaleFactor, scaleFactorOffset,
                      c.samples, n);
        case Rssi =>
          StoreScaled(intensities, n * (rssiCnt - 1), buf, start, bytes, scaleFactor, scaleFactorOffset, c.samples, n);
        case Vang =>
          vang := new real[n];
          OverwriteAll(vang[..], Scaled(c.samples, scaleFactor, scaleFactorOffset));
          StoreScaled(vang, 0, buf, start, 2, scaleFactor, scaleFactorOffset, c.samples, n);
        case Azimuth =>
          azimuth := new real[n];
          StoreAzimuth(azimuth, buf, start, bytes, h, c, float, pi, shift);
      }
      LastMore(cs, j, vang[..], azimuth[..], float, pi, shift);
    }

    /** One channel of the second pass: read its header, swap its samples, store them. */
    method FillChannel(buf: array<byte>, parseOff: nat, bytes: sampleWidth, distBefore: nat, rssiBefore: nat,
                       float: nat -> real, pi: real, shift: real, ghost t: Telegram, ghost j: nat,
                       ghost ranges0: seq<real>, ghost intensities0: seq<real>, ghost received: seq<byte>)
      returns (distChannelCnt: nat, rssiCnt: nat, next: nat)
      requires TelegramOk(t) && j < Walked(t, 0) && At(received, 0, TelegramBytes(t))
               && HostUpTo(t, j, received, buf[..])
      requires ShortCounts(t) && ReadsInside(t, |received|)
      requires parseOff == HeadStart(t, j) && bytes == WidthAt(t, j)
      requires var cs := Seen(t, received);
               && distBefore == Count(Dist, cs[..j]) && rssiBefore == Count(Rssi, cs[..j])
               && BlocksInside(Dist, cs[..j + 1], |ranges0|) && BlocksInside(Rssi, cs[..j + 1], |intensities0|)
               && Filled(cs[..j], ranges0, intensities0, float, pi, shift)
      requires Separate()
      modifies `vang, `azimuth, ranges, intensities, buf
      ensures Separate() && fresh({vang, azimuth} - old({vang, azimuth}))
      ensures var cs := Seen(t, received);
              && distChannelCnt == Count(Dist, cs[..j + 1]) && rssiCnt == Count(Rssi, cs[..j + 1])
              && (Count(Vang, cs[..j + 1]) == 0 ==> vang == old(vang))
              && (Count(Azimuth, cs[..j + 1]) == 0 ==> azimuth == old(azimuth))
              && Filled(cs[..j + 1], ranges0, intensities0, float, pi, shift)
      ensures HostUpTo(t, j + 1, received, buf[..]) && next == Start(t, j + 1)
    {
      hide TelegramBytes, Encode, Rest, At, Before, Count, TaskOf, BlocksInside, StoredBlocks, LastVang, LastAzimuth,
           HostUpTo, HostBytes, DataIs, Filled, SeenSamples, TelegramOk;
      ghost var cs := Seen(t, received);
      SeenAt(t, received, j);
      RestAtStart(received, t, j);
      ChannelAt(received, t, j);
      NextStart(t, j);
      UnreadSame(t, j, received, buf[..], parseOff, Encode(All(t)[j], bytes));
      var h := ReadChannelHead(buf, parseOff, All(t)[j], bytes);
      CountMore(Dist, cs, j);
      CountMore(Rssi, cs, j);
      CountMore(Vang, cs, j);
      CountMore(Azimuth, cs, j);
      distChannelCnt, rssiCnt := distBefore, rssiBefore;
      if h.task == Dist {
        distChannelCnt := distChannelCnt + 1;
      }
      if h.task == Rssi {
        rssiCnt := rssiCnt + 1;
      }
      BringToHostOrder(buf, parseOff + 21, bytes, h.numberOfItems, t, j, received);
      SeenInBuffer(t, j, received, buf[..]);
      StoreChannel(buf, parseOff + 21, bytes, h, distChannelCnt, rssiCnt, float, pi, shift, cs, j, ranges0,
                   intensities0);
      next := parseOff + 21 + bytes * h.numberOfItems;
    }

    /** Sizes the arrays by the counters of the first pass; a negative size is refused by an exception. */
    method Resize(dist: nat, rssi: nat, vangle: nat, azimuthCnt: nat, numberOfItems: int) returns (thrown: bool)
      requires Separate()
      modifies this
      ensures Separate()
      ensures thrown <==> numberOfItems < 0 && dist + rssi + vangle + azimuthCnt > 0
      ensures !thrown ==>
                var n := if numberOfItems < 0 then 0 else numberOfItems;
                && 0 <= n * dist && 0 <= n * rssi && fresh({ranges, vang, azimuth})
                && ranges[..] == Resized(old(ranges[..]), n * dist)
                && (if rssi > 0 then fresh(intensities) && intensities[..] == Resized(old(intensities[..]), n * rssi)
                    else intensities == old(intensities))
                && vang.Length == n * vangle && azimuth.Length == n * azimuthCnt
      ensures thrown ==> intensities == old(intensities)
    {
      if numberOfItems < 0 && dist > 0 {
        return true;
      }
      ranges := ResizeVector(ranges, Product(numberOfItems, dist));
      if rssi > 0 {
        if numberOfItems < 0 {
          return true;
        }
        intensities := ResizeVector(intensities, Product(numberOfItems, rssi));
      }
      if numberOfItems < 0 && vangle > 0 {
        return true;
      }
      vang := ResizeVector(vang, Product(numberOfItems, vangle));
      if numberOfItems < 0 && azimuthCnt > 0 {
        return true;
      }
      azimuth := ResizeVector(azimuth, Product(numberOfItems, azimuthCnt));
      return false;
    }

    /** What holds at the start of each round of the second pass, j channels done. */
    ghost predicate FillState(t: Telegram, j: nat, dist: nat, rssi: nat, received: seq<byte>, buf: array<byte>,
                              ranges0: seq<real>, intensities0: seq<real>, float: nat -> real, pi: real, shift: real)
      requires ReadsInside(t, |received|) && j <= Walked(t, 0)
      reads this, ranges, intensities, vang, azimuth, buf
    {
      var cs := Seen(t, received)[..j];
      && dist == Count(Dist, cs) && rssi == Count(Rssi, cs)
      && Filled(cs, ranges0, intensities0, float, pi, shift)
      && HostUpTo(t, j, received, buf[..])
    }

    /** Second pass: walk again, swap the samples in place and store them. */
    method FillPass(buf: array<byte>, start: nat, numberOf16BitChannels: nat, numberOf8BitChannels: nat,
                    float: nat -> real, pi: real, shift: real, ghost t: Telegram)
      requires TelegramOk(t) && At(buf[..], 0, TelegramBytes(t)) && ShortCounts(t) && ReadsInside(t, buf.Length)
      requires start == Start(t, 0) && numberOf16BitChannels == |t.wide| && numberOf8BitChannels == |t.narrow|
      requires BlocksInside(Dist, Seen(t, buf[..]), ranges.Length)
               && BlocksInside(Rssi, Seen(t, buf[..]), intensities.Length)
      requires Separate()
      modifies `vang, `azimuth, ranges, intensities, buf
      ensures Separate()
      ensures var cs := Seen(t, old(buf[..]));
              && Filled(cs, old(ranges[..]), old(intensities[..]), float, pi, shift)
              && (Count(Vang, cs) == 0 ==> vang == old(vang))
              && (Count(Azimuth, cs) == 0 ==> azimuth == old(azimuth))
      ensures HostUpTo(t, Walked(t, 0), old(buf[..]), buf[..])
    {
      hide TelegramBytes, Encode, Rest, At, Start, Count, TaskOf, HostUpTo, Filled, Walked, TaskAt, Seen, ShortCounts,
           TelegramOk, BlocksInside, ReadsInside;
      ghost var m, received := Walked(t, 0), buf[..];
      ghost var cs, ranges0, intensities0 := Seen(t, received), ranges[..], intensities[..];
      NoneFilled(cs, float, pi, shift);
      HostAtStart(t, received);
      var distChannelCnt, rssiCnt := 0, 0;
      var parseOff, totalChannelCnt, bCont := start, 0, true;
      while bCont
        invariant totalChannelCnt <= m + if bCont then 0 else 1
        invariant bCont ==> parseOff == Start(t, totalChannelCnt)
        invariant FillState(t, if bCont then totalChannelCnt else m, distChannelCnt, rssiCnt, received, buf,
                            ranges0, intensities0, float, pi, shift)
        invariant Separate() && fresh({vang, azimuth} - old({vang, azimuth}))
        invariant var seen := cs[..if bCont then totalChannelCnt else m];
                  && (Count(Vang, seen) == 0 ==> vang == old(vang))
                  && (Count(Azimuth, seen) == 0 ==> azimuth == old(azimuth))
        decreases bCont, m + 1 - totalChannelCnt
      {
        ghost var j := totalChannelCnt;
        var bytes := 2;
        if totalChannelCnt == numberOf16BitChannels {
          parseOff := parseOff + 2;
        }
        if totalChannelCnt >= numberOf16BitChannels {
          bytes := 1;
        }
        bCont := false;
        NextTask(t, j, received, buf[..], parseOff);
        WalkedTask(t, j);
        var task := ReadTask(buf, parseOff, totalChannelCnt < numberOf16BitChannels + numberOf8BitChannels, t, j);
        if task != Idle {
          bCont := true;
          BlocksInsidePrefix(Dist, cs, j + 1, |ranges0|);
          BlocksInsidePrefix(Rssi, cs, j + 1, |intensities0|);
          CountersMore(cs, j);
          distChannelCnt, rssiCnt, parseOff := FillChannel(buf, parseOff, bytes, distChannelCnt, rssiCnt,
                                                           float, pi, shift, t, j, ranges0, intensities0, received);
        }
        totalChannelCnt := totalChannelCnt + 1;
      }
      assert cs[..m] == cs;
    }

    lemma NoneFilled(cs: seq<Channel>, float: nat -> real, pi: real, shift: real)
      ensures Filled(cs[..0], ranges[..], intensities[..], float, pi, shift)
      ensures forall task: Task :: Count(task, cs[..0]) == 0
    {
      assert cs[..0] == [];
    }
  }

  lemma OverwriteAll(s: seq<real>, v: seq<real>)
    requires |s| == |v|
    ensures Overwrite(s, 0, v) == v
  {
  }

  lemma SeenAt(t: Telegram, received: seq<byte>, j: nat)
    requires ReadsInside(t, |received|) && j < Walked(t, 0) && ShortCounts(t)
    ensures var c := Seen(t, received)[j];
            && c == All(t)[j].(samples := SeenSamples(t, received, j)) && HeadOf(c) == HeadOf(All(t)[j])
            && |c.samples| < SHORT_RANGE && TaskOf(c.name) != Idle
  {
    hide TaskOf, SeenSamples;
  }

  lemma CountersMore(cs: seq<Channel>, j: nat)
    requires j < |cs|
    ensures forall task: Task ::
              Count(task, cs[..j + 1]) == Count(task, cs[..j]) + if TaskOf(cs[j].name) == task then 1 else 0
  {
    forall task: Task
      ensures Count(task, cs[..j + 1]) == Count(task, cs[..j]) + if TaskOf(cs[j].name) == task then 1 else 0
    {
      CountMore(task, cs, j);
    }
  }

  lemma {:induction false} BlocksInsidePrefix(task: Task, cs: seq<Channel>, j: nat, size: nat)
    requires BlocksInside(task, cs, size) && j <= |cs|
    ensures BlocksInside(task, cs[..j], size)
  {
    hide TaskOf, Count;
    if j < |cs| {
      BlocksInsidePrefix(task, cs[..|cs| - 1], j, size);
      assert cs[..|cs| - 1][..j] == cs[..j];
    } else {
      assert cs[..j] == cs;
    }
  }

  /** Channel j of the walk, if there is one, is still as received. */
  lemma NextTask(t: Telegram, j: nat, received: seq<byte>, buf: seq<byte>, parseOff: nat)
    requires TelegramOk(t) && At(received, 0, TelegramBytes(t)) && j <= |All(t)| && HostUpTo(t, j, received, buf)
    requires parseOff == HeadStart(t, j)
    ensures At(received, Start(t, j), Rest(t, j))
    ensures j < |All(t)| ==>
              ChannelOk(All(t)[j], WidthAt(t, j)) && At(buf, parseOff, Encode(All(t)[j], WidthAt(t, j)))
  {
    hide TelegramBytes, Encode, Rest, At, HostUpTo;
    RestAtStart(received, t, j);
    if j < |All(t)| {
      ChannelAt(received, t, j);
      UnreadSame(t, j, received, buf, parseOff, Encode(All(t)[j], WidthAt(t, j)));
    }
  }

  lemma WalkedTask(t: Telegram, j: nat)
    requires j <= Walked(t, 0)
    ensures TaskAt(t, j) == Idle <==> j == Walked(t, 0)
  {
    hide TaskOf;
  }

  // ---- memory safety ----

  /** The count of the last walked channel, by which the arrays are sized. */
  function LastItems(t: Telegram): nat {
    if Walked(t, 0) == 0 then 0 else |All(t)[Walked(t, 0) - 1].samples|
  }

  function WalkedChannels(t: Telegram): seq<Channel> {
    All(t)[..Walked(t, 0)]
  }

  /** The size of the array for the channels of a kind. */
  function ArraySize(task: Task, t: Telegram): nat {
    ProductNonNegative(LastItems(t), Count(task, WalkedChannels(t)));
    LastItems(t) * Count(task, WalkedChannels(t))
  }

  /** The k-th channel of a kind leaves room in the array for k blocks of its own size. */
  ghost predicate ArrayFits(task: Task, t: Telegram) {
    var cs := WalkedChannels(t);
    forall j :: 0 <= j < |cs| && TaskOf(cs[j].name) == task ==>
      |cs[j].samples| * Count(task, cs[..j + 1]) <= ArraySize(task, t)
  }

  /**
   For all telegrams whose counts can be read as shorts, so that a fill pass is reached: it writes only inside the
   arrays if and only if the blocks fit.
   */
  lemma WritesInsideExactly(task: Task, t: Telegram)
    requires ShortCounts(t)
    ensures WritesInside(task, WalkedChannels(t), ArraySize(task, t)) <==> ArrayFits(task, t)
  {
    hide Count, TaskOf, ArraySize, WriteIndex, WalkedChannels;
    var cs, size := WalkedChannels(t), ArraySize(task, t);
    forall j | 0 <= j < |cs| && TaskOf(cs[j].name) == task
      ensures |cs[j].samples| * Count(task, cs[..j + 1]) <= size <==> ChannelInside(task, cs, j, size)
    {
      ChannelInsideExactly(task, cs, j, size);
    }
    ChannelsInside(task, cs, size);
  }

  lemma ChannelsInside(task: Task, cs: seq<Channel>, size: nat)
    ensures WritesInside(task, cs, size)
            <==> forall j :: 0 <= j < |cs| && TaskOf(cs[j].name) == task ==> ChannelInside(task, cs, j, size)
  {
    hide TaskOf, WriteIndex;
  }

  lemma UniformFits(task: Task, t: Telegram, n: nat)
    requires Uniform(t, n)
    ensures ArrayFits(task, t)
  {
    hide TaskOf, Count;
    var cs := WalkedChannels(t);
    forall j | 0 <= j < |cs|
      ensures |cs[j].samples| * Count(task, cs[..j + 1]) <= ArraySize(task, t)
    {
      CountMonotone(task, cs, j + 1, |cs|);
      assert cs[..|cs|] == cs;
      MultiplyMonotone(Count(task, cs[..j + 1]), Count(task, cs), n);
    }
  }

  lemma SeenSame(t: Telegram, received: seq<byte>, j: nat)
    requires ReadsInside(t, |received|) && j < Walked(t, 0)
    ensures Seen(t, received)[j].name == All(t)[j].name && |Seen(t, received)[j].samples| == |All(t)[j].samples|
  {
    hide TaskOf, SeenSamples;
  }

  lemma BlocksInsideMore(task: Task, cs: seq<Channel>, j: nat, size: nat)
    requires j < |cs|
    ensures BlocksInside(task, cs[..j + 1], size)
            <==> BlocksInside(task, cs[..j], size)
                 && (TaskOf(cs[j].name) == task ==> |cs[j].samples| * Count(task, cs[..j + 1]) <= size)
  {
    hide TaskOf, Count;
    TakeOneMore(cs, j);
  }

  lemma {:induction false} SeenBlocks(task: Task, t: Telegram, received: seq<byte>, j: nat, size: nat)
    requires ReadsInside(t, |received|) && j <= Walked(t, 0)
    ensures BlocksInside(task, Seen(t, received)[..j], size) <==> BlocksInside(task, All(t)[..j], size)
  {
    hide TaskOf, Count, Seen, BlocksInside, Walked, All, ReadsInside;
    if j > 0 {
      SeenBlocks(task, t, received, j - 1, size);
      SeenCount(task, t, received, j);
      SeenSame(t, received, j - 1);
      BlocksInsideMore(task, Seen(t, received), j - 1, size);
      BlocksInsideMore(task, All(t), j - 1, size);
    } else {
      assert Seen(t, received)[..0] == All(t)[..0];
    }
  }

  lemma SeenFits(task: Task, t: Telegram, received: seq<byte>)
    requires ReadsInside(t, |received|) && ArrayFits(task, t) && ShortCounts(t)
    ensures BlocksInside(task, Seen(t, received), ArraySize(task, t))
    ensures Count(task, Seen(t, received)) == Count(task, WalkedChannels(t))
  {
    hide TaskOf, Count, Seen, ArraySize, BlocksInside;
    var m := Walked(t, 0);
    WritesInsideExactly(task, t);
    BlocksInsideExactly(task, WalkedChannels(t), ArraySize(task, t));
    SeenBlocks(task, t, received, m, ArraySize(task, t));
    SeenAll(task, t, received);
    assert Seen(t, received)[..m] == Seen(t, received);
  }

  /**
   A DIST channel with two samples, then an RSSI channel with one: the second distance is written behind the array.
   */
  const ShorterLast := Telegram(PLAIN_HEADER, [Named(DIST_NAME, 2), Named(RSSI_NAME, 1)], [])

  lemma ShorterLastOverruns()
    ensures Receivable(ShorterLast) && ShortCounts(ShorterLast) && Walked(ShorterLast, 0) == 2
    ensures ArraySize(Dist, ShorterLast) == 1 && WriteIndex(Dist, WalkedChannels(ShorterLast), 0, 1) == 1
    ensures !ArrayFits(Dist, ShorterLast)
  {
    var t := ShorterLast;
    PlainHeader();
    NextStart(t, 0);
    NextStart(t, 1);
    TotalLength(t);
    TasksOfNames();
    assert Walked(t, 1) == 2;
    var cs := WalkedChannels(t);
    assert cs == t.wide && cs[..1] == [cs[0]] && cs[..2] == cs && cs[..1][..0] == [];
    assert Count(Dist, cs[..1]) == 1;
  }

  // ---- how the parser ends ----

  /**
   Completed, or the first thing that goes wrong: a header read outside the buffer, a table of angles or an array
   resized to a negative size, a fill pass that writes outside the arrays or reads outside the buffer.
   */
  datatype Outcome =
    Completed | WalkLeavesBuffer | CountingThrows | ResizingThrows | FillLeavesArrays | FillLeavesBuffer

  ghost function OutcomeOf(t: Telegram, received: seq<byte>): Outcome {
    var wide, total, start := |t.wide|, |All(t)|, Start(t, 0);
    var m := Rounds(received, wide, total, start, 0);
    if !StaysInside(received, wide, total, start) then WalkLeavesBuffer
    else if m < total && Throws(received, wide, start, m) then CountingThrows
    else if LastItemsRead(received, wide, start, m) < 0 && Counted(received, wide, start, m) > 0 then ResizingThrows
    else if !WritesInside(Dist, WalkedChannels(t), ArraySize(Dist, t))
            || !WritesInside(Rssi, WalkedChannels(t), ArraySize(Rssi, t)) then
      FillLeavesArrays
    else if !ReadsInside(t, |received|) then FillLeavesBuffer
    else Completed
  }

  /** All channels a pass has counted. */
  function Counted(received: seq<byte>, numberOf16BitChannels: nat, start: nat, m: nat): nat {
    Recognised(Dist, received, numberOf16BitChannels, start, m)
    + Recognised(Rssi, received, numberOf16BitChannels, start, m)
    + Recognised(Vang, received, numberOf16BitChannels, start, m)
    + Recognised(Azimuth, received, numberOf16BitChannels, start, m)
  }

  /** What the first walked channel with a count of 0x8000 or more does to the parser. */
  function LongOutcome(t: Telegram): Outcome
    requires !ShortCounts(t)
  {
    LongExists(t);
    var j := LongFrom(t, 0);
    if TaskOf(All(t)[j].name) == Vang || TaskOf(All(t)[j].name) == Azimuth then CountingThrows
    else if j + 1 < |All(t)| then WalkLeavesBuffer
    else ResizingThrows
  }

  /** What the first pass over a telegram counts. */
  lemma CountsAreWalked(received: seq<byte>, t: Telegram)
    requires TelegramOk(t) && At(received, 0, TelegramBytes(t)) && ShortCounts(t)
    ensures var wide, total, start, m := |t.wide|, |All(t)|, Start(t, 0), Walked(t, 0);
            && StaysInside(received, wide, total, start)
            && Rounds(received, wide, total, start, 0) == m && !(m < total && Throws(received, wide, start, m))
            && LastItemsRead(received, wide, start, m) == LastItems(t)
            && forall task: Task :: Recognised(task, received, wide, start, m) == Count(task, WalkedChannels(t))
  {
    hide TelegramBytes, TelegramOk, At, Count, Walked, Rounds, Recognised, LastItemsRead, StaysInside, Start, OnTrack,
         Throws, Goes, TaskOf, PassPosition;
    ShortIsPassable(t);
    PassIsWalk(received, t, Walked(t, 0));
    RoundsAreWalked(received, t);
    if Walked(t, 0) < |All(t)| {
      assert OnTrack(received, t, Walked(t, 0));
      OnTrackNext(received, t, Walked(t, 0));
    }
    PassStaysInside(received, t, Walked(t, 0));
  }

  /**
   For every receivable telegram: the parser runs to its end, with all its reads inside the buffer and all its writes
   inside the arrays, if and only if every walked count can be read as a short, all blocks fit, and 8-bit distances and
   elevation angles, which it reads as pairs of bytes, do not reach behind the buffer. Else it ends as said.
   */
  lemma OutcomeExactly(t: Telegram, received: seq<byte>)
    requires TelegramOk(t) && At(received, 0, TelegramBytes(t)) && (ShortCounts(t) || Receivable(t))
    ensures OutcomeOf(t, received) == Completed
            <==> ShortCounts(t) && ArrayFits(Dist, t) && ArrayFits(Rssi, t) && ReadsInside(t, |received|)
    ensures OutcomeOf(t, received)
            == if !ShortCounts(t) then LongOutcome(t)
               else if !ArrayFits(Dist, t) || !ArrayFits(Rssi, t) then FillLeavesArrays
               else if !ReadsInside(t, |received|) then FillLeavesBuffer
               else Completed
  {
    hide TelegramBytes, TelegramOk, At, Count, Walked, Rounds, Recognised, LastItemsRead, StaysInside, Start, Throws,
         TaskOf, WritesInside, ArrayFits, ReadsInside, ArraySize, WalkedChannels, ShortCounts, LastItems;
    if ShortCounts(t) {
      CountsAreWalked(received, t);
      WritesInsideExactly(Dist, t);
      WritesInsideExactly(Rssi, t);
    } else {
      LongExists(t);
      LongCountEndsThePass(received, t);
    }
  }

  /**
   The blocks of the telegram with the long angles fit its arrays by their unsigned counts: only the count is at fault.
   */
  lemma LongAnglesOutcome()
    ensures Receivable(LongVang) && OutcomeOf(LongVang, TelegramBytes(LongVang)) == CountingThrows
  {
    TasksOfNames();
    LongThenMore(LongVang, VANG_NAME);
    AtSelf(TelegramBytes(LongVang));
    hide TelegramBytes, TelegramOk, At, Walked, ShortCounts, OutcomeOf, TaskOf;
    OutcomeExactly(LongVang, TelegramBytes(LongVang));
  }

  /** One DIST channel of 0x8000 samples and nothing behind it. */
  const LongDist := Telegram(PLAIN_HEADER, [], [Named(DIST_NAME, 0x8000)])

  lemma LongDistCounts()
    ensures TelegramOk(LongDist) && Receivable(LongDist)
    ensures !ShortCounts(LongDist) && LongFrom(LongDist, 0) == 0 && |All(LongDist)| == 1
            && TaskOf(All(LongDist)[0].name) == Dist
  {
    var t := LongDist;
    PlainHeader();
    TasksOfNames();
    hide TaskOf;
    NextStart(t, 0);
    TotalLength(t);
    assert All(t)[0].name == DIST_NAME && Walked(t, 0) == 1 && LongFrom(t, 0) == 0;
  }

  lemma LongDistanceOutcome()
    ensures Receivable(LongDist) && OutcomeOf(LongDist, TelegramBytes(LongDist)) == ResizingThrows
  {
    LongDistCounts();
    hide TelegramBytes, TelegramOk, At, ShortCounts, OutcomeOf, TaskOf;
    AtSelf(TelegramBytes(LongDist));
    OutcomeExactly(LongDist, TelegramBytes(LongDist));
  }

  // ---- the whole parser ----

  /** What the channels of a kind start from when they are stored. */
  function Initial(task: Task, t: Telegram, was: seq<real>): seq<real> {
    if task == Dist || Count(task, WalkedChannels(t)) > 0 then Resized(was, ArraySize(task, t)) else was
  }

  /** Channel part of parseCommonBinaryResultTelegram, where it stays inside buffer and arrays. */
  method ParseCommonBinaryResultTelegram(receiveBuffer: array<byte>, msg: ScanOutput, float: nat -> real, pi: real,
                                         shift: real, ghost t: Telegram)
    returns (thrown: bool, numEchos: nat)
    requires TelegramOk(t) && At(receiveBuffer[..], 0, TelegramBytes(t)) && (ShortCounts(t) || Receivable(t))
    requires OutcomeOf(t, receiveBuffer[..]) in {Completed, CountingThrows, ResizingThrows}
    requires msg.Separate()
    modifies msg, msg.intensities, receiveBuffer
    ensures msg.Separate()
    ensures thrown <==> OutcomeOf(t, old(receiveBuffer[..])) != Completed
    ensures thrown <==> !ShortCounts(t)
    ensures thrown ==> receiveBuffer[..] == old(receiveBuffer[..])
    ensures !thrown ==>
              && ReadsInside(t, receiveBuffer.Length)
              && numEchos == Count(Dist, WalkedChannels(t))
              && var cs := Seen(t, old(receiveBuffer[..]));
              && msg.Filled(cs, Initial(Dist, t, old(msg.ranges[..])), Initial(Rssi, t, old(msg.intensities[..])),
                            float, pi, shift)
              && (Count(Vang, cs) == 0 ==> msg.vang.Length == 0)
              && (Count(Azimuth, cs) == 0 ==> msg.azimuth.Length == 0)
              && HostUpTo(t, Walked(t, 0), old(receiveBuffer[..]), receiveBuffer[..])
  {
    hide Count, TaskOf, LastVang, LastAzimuth, HostUpTo, Seen, BlocksInside, StoredBlocks, Resized, Walked, OutcomeOf,
         TelegramOk, TelegramBytes, At, ArrayFits, ReadsInside, ShortCounts, Start, WalkedChannels,
         Rounds, Recognised, LastItemsRead, StaysInside, Throws;
    ghost var received := receiveBuffer[..];
    OutcomeExactly(t, received);
    OutcomeSays(t, received);
    var start, numberOf16BitChannels, numberOf8BitChannels := ReadChannelNumbers(receiveBuffer, t);
    numEchos := 0;
    var dist, vangle, azimuthCnt, rssi, numberOfItems;
    thrown, dist, vangle, azimuthCnt, rssi, numberOfItems :=
      CountPass(receiveBuffer, start, numberOf16BitChannels, numberOf8BitChannels);
    if thrown {
      return;
    }
    numEchos := dist;
    thrown := msg.Resize(dist, rssi, vangle, azimuthCnt, numberOfItems);
    if thrown {
      return;
    }
    CountsAreWalked(received, t);
    SeenFits(Dist, t, received);
    SeenFits(Rssi, t, received);
    SeenAll(Vang, t, received);
    SeenAll(Azimuth, t, received);
    if rssi == 0 {
      NoBlocks(Rssi, Seen(t, received), msg.intensities.Length);
    }
    msg.FillPass(receiveBuffer, start, numberOf16BitChannels, numberOf8BitChannels, float, pi, shift, t);
  }

  /** The outcome as the tests the parser makes. */
  lemma OutcomeSays(t: Telegram, received: seq<byte>)
    requires OutcomeOf(t, received) in {Completed, CountingThrows, ResizingThrows}
    ensures var wide, total, start := |t.wide|, |All(t)|, Start(t, 0);
            var m := Rounds(received, wide, total, start, 0);
            && StaysInside(received, wide, total, start)
            && (OutcomeOf(t, received) == CountingThrows <==> m < total && Throws(received, wide, start, m))
            && (OutcomeOf(t, received) == ResizingThrows ==>
                  LastItemsRead(received, wide, start, m) < 0 && Counted(received, wide, start, m) > 0)
            && (OutcomeOf(t, received) == Completed ==>
                  !(LastItemsRead(received, wide, start, m) < 0 && Counted(received, wide, start, m) > 0))
  {
    hide Rounds, StaysInside, Throws, LastItemsRead, Recognised, WritesInside, ReadsInside;
  }

  lemma {:induction false} NoBlocks(task: Task, cs: seq<Channel>, size: nat)
    requires Count(task, cs) == 0
    ensures BlocksInside(task, cs, size)
  {
    hide TaskOf;
    if cs != [] {
      NoBlocks(task, cs[..|cs| - 1], size);
    }
  }

  /** The numbers of channels, and where the first one stands. */
  method ReadChannelNumbers(receiveBuffer: array<byte>, ghost t: Telegram)
    returns (start: nat, numberOf16BitChannels: nat, numberOf8BitChannels: nat)
    requires TelegramOk(t) && At(receiveBuffer[..], 0, TelegramBytes(t))
    ensures start == Start(t, 0) && numberOf16BitChannels == |t.wide| && numberOf8BitChannels == |t.narrow|
  {
    hide TelegramBytes, TelegramOk, At, Be, SkipPosition, Start;
    ghost var received := receiveBuffer[..];
    HeaderCounts(received, t);
    assert forall lo, hi :: 0 <= lo <= hi <= receiveBuffer.Length ==> received[lo..hi] == receiveBuffer[lo..hi];
    var numOfEncoders := ReadSwapped(receiveBuffer, 60, 2);
    var encoderDataOffset := 6 * numOfEncoders;
    numberOf16BitChannels := ReadSwapped(receiveBuffer, 62 + encoderDataOffset, 2);
    start := 64 + encoderDataOffset;
    PreScanFinds(received, t);
    numberOf8BitChannels := PreScan(receiveBuffer, start, numberOf16BitChannels);
  }

  lemma SeenAll(task: Task, t: Telegram, received: seq<byte>)
    requires ReadsInside(t, |received|)
    ensures Count(task, Seen(t, received)) == Count(task, WalkedChannels(t))
  {
    hide TaskOf, Count, SeenSamples;
    SeenCount(task, t, received, Walked(t, 0));
    assert Seen(t, received)[..Walked(t, 0)] == Seen(t, received);
  }

  lemma HeaderCounts(received: seq<byte>, t: Telegram)
    requires TelegramOk(t) && At(received, 0, TelegramBytes(t))
    ensures |received| >= |t.header| + 2 && Start(t, 0) == |t.header| + 2
    ensures |t.header| == 62 + 6 * Be(received[60..62])
    ensures Be(received[|t.header|..|t.header| + 2]) == |t.wide|
  {
    hide TelegramBytes, Be, ToBe, At, Rest;
    RestAtStart(received, t, 0);
    AtSlice(received, 0, t.header);
    AtSlice(received, |t.header|, ToBe(|t.wide|, 2));
    BeOfToBe(|t.wide|, 2);
    assert received[60..62] == received[0..0 + |t.header|][60..62];
  }

  /**
   With one common count and 16-bit distances, the array a pass leaves is filled exactly by the blocks of the channels:
   element k * n + i is sample i of the k-th channel, scaled.
   */
  lemma StoredValue(task: Task, t: Telegram, received: seq<byte>, n: nat, init: seq<real>, k: nat, i: nat,
                    float: nat -> real)
    requires ReadsInside(t, |received|) && Uniform(t, n) && WideData(t) && |init| == ArraySize(task, t)
    requires k < Count(task, WalkedChannels(t)) && i < n
    ensures BlocksInside(task, Seen(t, received), |init|)
    ensures var stored := StoredBlocks(task, Seen(t, received), init, float);
            && stored == Values(task, WalkedChannels(t), float)
            && |stored| == n * Count(task, WalkedChannels(t))
            && IsSample(stored, task, WalkedChannels(t), n, k, i, float)
  {
    hide Count, Values, TaskOf, StoredBlocks, IsSample, Seen, BlocksInside, ReadsInside, WideData;
    var cs := WalkedChannels(t);
    SeenIsSent(t, received);
    WalkedSameCount(task, t, n, Walked(t, 0));
    SomeWalked(task, t, n, k);
    StoredPrefix(task, cs, n, init, float);
    var stored := StoredBlocks(task, cs, init, float);
    assert stored[..|stored|] == stored;
    ValueAt(task, cs, n, k, i, float);
  }

  lemma SomeWalked(task: Task, t: Telegram, n: nat, k: nat)
    requires Uniform(t, n) && k < Count(task, WalkedChannels(t))
    ensures LastItems(t) == n
  {
    hide TaskOf, Walked;
    assert Walked(t, 0) > 0;
  }

  /**
   The buffer differs from the received one by one exchange per 16-bit sample of the walked channels, and nothing else.
   */
  lemma SamplesSwappedOnly(t: Telegram, received: seq<byte>, buf: seq<byte>)
    requires TelegramOk(t) && At(received, 0, TelegramBytes(t)) && HostUpTo(t, Walked(t, 0), received, buf)
    ensures |buf| == |received|
    ensures forall p :: 0 <= p < |buf| ==>
              var q := SwappedFrom(t, Walked(t, 0), p);
              q < |received| && buf[p] == received[q]
  {
    hide TelegramBytes, At, TelegramOk, HostUpTo, SwappedFrom, Walked;
    HostUpToLength(t, Walked(t, 0), received, buf);
    forall p | 0 <= p < |buf|
      ensures SwappedFrom(t, Walked(t, 0), p) < |received| && buf[p] == received[SwappedFrom(t, Walked(t, 0), p)]
    {
      HostUpToExactly(t, Walked(t, 0), received, buf, p);
    }
  }
}
