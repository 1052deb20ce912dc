/** What the arrays of the LMDscandata parser hold, said in the bytes of the telegram. */
module LmdValues {
  import opened Arithmetic
  import opened Bytes
  import opened Fields
  import opened LmdTelegram
  import opened LmdParser

  /** Two bytes of a telegram, the first or the second one being the high one. */
  function Pair(high: byte, low: byte): nat {
    256 * (high as nat) + low as nat
  }

  /**
   What the parser takes for sample i of the channel whose header stands at head: of a 16-bit channel two bytes, the
   first one high; of an 8-bit channel one byte, but for distances and elevation angles two, the first one low.
   */
  ghost predicate IsTaken(sample: nat, received: seq<byte>, head: nat, task: Task, wide: bool, i: nat) {
    if wide then
      head + 23 + 2 * i <= |received| && sample == Pair(received[head + 21 + 2 * i], received[head + 22 + 2 * i])
    else if task == Dist || task == Vang then
      head + 23 + 2 * i <= |received| && sample == Pair(received[head + 22 + 2 * i], received[head + 21 + 2 * i])
    else head + 22 + i <= |received| && sample == received[head + 21 + i]
  }

  /** Sample i behind a header, two bytes with the high one first, or one byte. */
  function SampleAt(received: seq<byte>, head: nat, wide: bool, i: nat): nat
    requires head + 22 + i <= |received| && (wide ==> head + 23 + 2 * i <= |received|)
  {
    if wide then Pair(received[head + 21 + 2 * i], received[head + 22 + 2 * i]) else received[head + 21 + i]
  }

  lemma TakenIsSample(sample: nat, received: seq<byte>, head: nat, task: Task, wide: bool, i: nat)
    requires IsTaken(sample, received, head, task, wide, i) && task != Dist && task != Vang
    ensures head + 22 + i <= |received| && (wide ==> head + 23 + 2 * i <= |received|)
    ensures SampleAt(received, head, wide, i) == sample
  {
  }

  lemma WireSample(samples: seq<u16>, w: sampleWidth, i: nat)
    requires i < |samples|
    ensures w == 2 ==> Pair(SampleBytes(samples, w)[2 * i], SampleBytes(samples, w)[2 * i + 1]) == samples[i]
    ensures w == 1 ==> SampleBytes(samples, w)[i] == samples[i] % 256
  {
    if w == 2 {
      assert 2 * i / 2 == i && (2 * i + 1) / 2 == i && 2 * i % 2 == 0 && (2 * i + 1) % 2 == 1;
      var wire := WideBytes(samples, true);
      assert wire[2 * i] == samples[i] / 256;
      assert wire[2 * i + 1] == samples[i] % 256;
    }
  }

  lemma TakenFromWire(samples: seq<u16>, w: sampleWidth, received: seq<byte>, head: nat, task: Task, i: nat)
    requires i < |samples| && At(received, head + CHANNEL_HEADER, SampleBytes(samples, w))
    requires if w == 1 then samples[i] < 256 && ReadWidth(task, 1) == 1 else true
    ensures IsTaken(samples[i], received, head, task, w == 2, i)
  {
    AtIndex(received, head + CHANNEL_HEADER, SampleBytes(samples, w));
    WireSample(samples, w, i);
    hide SampleBytes, At;
    if w == 2 {
      assert received[head + 21 + 2 * i] == SampleBytes(samples, 2)[2 * i];
      assert received[head + 22 + 2 * i] == SampleBytes(samples, 2)[2 * i + 1];
    } else {
      assert received[head + 21 + i] == SampleBytes(samples, 1)[i];
    }
  }

  lemma TakenAsPairs(received: seq<byte>, head: nat, n: nat, task: Task, i: nat)
    requires i < n && head + CHANNEL_HEADER + 2 * n <= |received| && ReadWidth(task, 1) == 2
    ensures IsTaken(Pairs(received, head + CHANNEL_HEADER, n)[i], received, head, task, false, i)
  {
  }

  lemma SampleTaken(t: Telegram, received: seq<byte>, j: nat, i: nat)
    requires TelegramOk(t) && At(received, 0, TelegramBytes(t)) && ReadsInside(t, |received|)
    requires j < Walked(t, 0) && i < |All(t)[j].samples|
    ensures IsTaken(SeenSamples(t, received, j)[i], received, HeadStart(t, j), TaskOf(All(t)[j].name), j < |t.wide|, i)
  {
    hide TelegramBytes, At, TelegramOk, Encode, Rest, TaskOf, Walked, SampleBytes, IsTaken, HeadStart, Pairs;
    var c, w, head := All(t)[j], WidthAt(t, j), HeadStart(t, j);
    RestAtStart(received, t, j);
    ChannelAt(received, t, j);
    HeaderFields(received, head, c, w);
    if j < |t.wide| || ReadWidth(TaskOf(c.name), 1) == 1 {
      assert ChannelOk(c, w);
      TakenFromWire(c.samples, w, received, head, TaskOf(c.name), i);
    } else {
      TakenAsPairs(received, head, |c.samples|, TaskOf(c.name), i);
    }
  }

  /** Name, scale, offset, start angle and step of a channel, where the telegram has them. */
  ghost predicate HeaderStands(c: Channel, received: seq<byte>, head: nat) {
    && head + 21 <= |received|
    && c.name == received[head..head + 5]
    && c.scale == Be(received[head + 5..head + 9]) && c.offset == Be(received[head + 9..head + 13])
    && c.startAngle == Be(received[head + 13..head + 17]) - (if received[head + 13] < 0x80 then 0 else 0x1_0000_0000)
    && c.step == Be(received[head + 17..head + 19])
    && |c.samples| == Be(received[head + 19..head + 21])
  }

  lemma ChannelStands(t: Telegram, received: seq<byte>, j: nat)
    requires TelegramOk(t) && At(received, 0, TelegramBytes(t)) && j < |All(t)|
    ensures HeaderStands(All(t)[j], received, HeadStart(t, j))
  {
    hide TelegramBytes, At, TelegramOk, Encode, Rest, SampleBytes, Be;
    RestAtStart(received, t, j);
    ChannelAt(received, t, j);
    var head := HeadStart(t, j);
    HeaderFields(received, head, All(t)[j], WidthAt(t, j));
    BeFour(received[head + 13], received[head + 14], received[head + 15], received[head + 16]);
    assert received[head + 13..head + 17]
        == [received[head + 13], received[head + 14], received[head + 15], received[head + 16]];
  }

  /**
   Where the headers stand: behind 62 bytes, encoder blocks of six bytes each, and the number of 16-bit channels; every
   channel takes 21 bytes and its samples; the number of 8-bit channels stands before the first of them.
   */
  lemma HeadsFromBytes(t: Telegram, received: seq<byte>, j: nat)
    requires TelegramOk(t) && At(received, 0, TelegramBytes(t)) && j < |All(t)|
    ensures 62 <= |received|
    ensures var encoders := Be(received[60..62]);
            && 64 + 6 * encoders <= |received| && Be(received[62 + 6 * encoders..64 + 6 * encoders]) == |t.wide|
            && (j == 0 ==> HeadStart(t, j) == 64 + 6 * encoders + if |t.wide| == 0 then 2 else 0)
    ensures j > 0 ==>
              HeadStart(t, j) == HeadStart(t, j - 1) + 21 + (if j <= |t.wide| then 2 else 1) * |All(t)[j - 1].samples|
                                 + if j == |t.wide| then 2 else 0
    ensures j == |t.wide| ==>
              2 <= HeadStart(t, j) <= |received| && Be(received[HeadStart(t, j) - 2..HeadStart(t, j)]) == |t.narrow|
  {
    hide TelegramBytes, At, Encode, Rest, Be, ToBe;
    HeaderCounts(received, t);
    NarrowCountAt(received, t);
    if j > 0 {
      NextStart(t, j - 1);
    }
  }

  // ---- the values stored ----

  /** The head of the k-th walked channel of a kind. */
  function HeadOfNth(t: Telegram, task: Task, k: nat): nat
    requires k < Count(task, WalkedChannels(t))
  {
    HeadStart(t, Nth(task, WalkedChannels(t), k))
  }

  lemma DistanceIsWide(t: Telegram, k: nat)
    requires WideData(t) && k < Count(Dist, WalkedChannels(t))
    ensures Nth(Dist, WalkedChannels(t), k) < |t.wide|
  {
    hide TaskOf, Count, Nth;
    var j := Nth(Dist, WalkedChannels(t), k);
    assert WalkedChannels(t)[j] == All(t)[j];
  }

  /** A stored value, with sample, scale and offset named. */
  lemma SampleWritten(values: seq<real>, task: Task, cs: seq<Channel>, n: nat, k: nat, i: nat, float: nat -> real,
                      sample: nat, scale: nat, offset: nat)
    requires k < Count(task, cs) && IsSample(values, task, cs, n, k, i, float)
    requires var c := cs[Nth(task, cs, k)];
             i < |c.samples| && sample == c.samples[i] && scale == c.scale && offset == c.offset
    ensures 0 <= k * n + i < |values|
    ensures task == Dist ==> values[k * n + i] == sample as real * float(scale) / 1000.0 + float(offset)
    ensures task == Rssi ==> values[k * n + i] == sample as real * float(scale) + float(offset)
  {
  }

  /** Which channel and sample of the telegram a stored value comes from. */
  lemma StoredSource(task: Task, t: Telegram, received: seq<byte>, n: nat, init: seq<real>, k: nat, i: nat,
                     float: nat -> real)
    requires TelegramOk(t) && At(received, 0, TelegramBytes(t)) && ReadsInside(t, |received|)
    requires Uniform(t, n) && WideData(t) && |init| == ArraySize(task, t)
    requires k < Count(task, WalkedChannels(t)) && i < n
    ensures BlocksInside(task, Seen(t, received), |init|)
    ensures var j := Nth(task, WalkedChannels(t), k);
            var c, head := All(t)[j], HeadStart(t, j);
            && i < |c.samples| && HeaderStands(c, received, head)
            && IsTaken(c.samples[i], received, head, task, j < |t.wide|, i)
            && IsSample(StoredBlocks(task, Seen(t, received), init, float), task, WalkedChannels(t), n, k, i, float)
  {
    hide TelegramBytes, At, TelegramOk, Count, TaskOf, StoredBlocks, BlocksInside, ReadsInside, Walked, HeadStart, Be,
         HeaderStands, IsTaken;
    StoredValue(task, t, received, n, init, k, i, float);
    SeenIsSent(t, received);
    var j := Nth(task, WalkedChannels(t), k);
    assert WalkedChannels(t)[j] == All(t)[j];
    hide IsSample, Nth;
    ChannelStands(t, received, j);
    SampleTaken(t, received, j, i);
  }

  /**
   With one common count and 16-bit distances: element k * n + i of the ranges is the i-th pair of bytes of the k-th
   DIST channel times the scale in its header, in thousandths, plus the offset in its header.
   */
  lemma RangeFromBytes(t: Telegram, received: seq<byte>, n: nat, init: seq<real>, k: nat, i: nat, float: nat -> real)
    requires TelegramOk(t) && At(received, 0, TelegramBytes(t)) && ReadsInside(t, |received|)
    requires Uniform(t, n) && WideData(t) && |init| == ArraySize(Dist, t)
    requires k < Count(Dist, WalkedChannels(t)) && i < n
    ensures BlocksInside(Dist, Seen(t, received), |init|)
    ensures var head := HeadOfNth(t, Dist, k);
            && head + 23 + 2 * i <= |received| && 0 <= k * n + i < |init|
            && StoredBlocks(Dist, Seen(t, received), init, float)[k * n + i]
               == Pair(received[head + 21 + 2 * i], received[head + 22 + 2 * i]) as real
                  * float(Be(received[head + 5..head + 9])) / 1000.0
                  + float(Be(received[head + 9..head + 13]))
  {
    hide TelegramBytes, At, TelegramOk, Count, TaskOf, StoredBlocks, Seen, BlocksInside, ReadsInside, Uniform, WideData,
         HeadStart, Nth, Be, IsSample, Pair;
    StoredSource(Dist, t, received, n, init, k, i, float);
    DistanceIsWide(t, k);
    var head := HeadOfNth(t, Dist, k);
    var sample := Pair(received[head + 21 + 2 * i], received[head + 22 + 2 * i]);
    SampleWritten(StoredBlocks(Dist, Seen(t, received), init, float), Dist, WalkedChannels(t), n, k, i, float, sample,
                  Be(received[head + 5..head + 9]), Be(received[head + 9..head + 13]));
  }

  /** Element k * n + i of the intensities: sample i of the k-th RSSI channel, times its scale, plus its offset. */
  lemma IntensityFromBytes(t: Telegram, received: seq<byte>, n: nat, init: seq<real>, k: nat, i: nat,
                           float: nat -> real)
    requires TelegramOk(t) && At(received, 0, TelegramBytes(t)) && ReadsInside(t, |received|)
    requires Uniform(t, n) && WideData(t) && |init| == ArraySize(Rssi, t)
    requires k < Count(Rssi, WalkedChannels(t)) && i < n
    ensures BlocksInside(Rssi, Seen(t, received), |init|)
    ensures var head, wide := HeadOfNth(t, Rssi, k), Nth(Rssi, WalkedChannels(t), k) < |t.wide|;
            && head + 22 + i <= |received| && (wide ==> head + 23 + 2 * i <= |received|) && 0 <= k * n + i < |init|
            && StoredBlocks(Rssi, Seen(t, received), init, float)[k * n + i]
               == SampleAt(received, head, wide, i) as real
                  * float(Be(received[head + 5..head + 9]))
                  + float(Be(received[head + 9..head + 13]))
  {
    hide TelegramBytes, At, TelegramOk, Count, TaskOf, StoredBlocks, Seen, BlocksInside, ReadsInside, Uniform, WideData,
         HeadStart, Nth, Be, IsSample, IsTaken, SampleAt, ArraySize;
    StoredSource(Rssi, t, received, n, init, k, i, float);
    var head := HeadOfNth(t, Rssi, k);
    var j := Nth(Rssi, WalkedChannels(t), k);
    TakenIsSample(All(t)[j].samples[i], received, head, Rssi, j < |t.wide|, i);
    assert Be(received[head + 5..head + 9]) == All(t)[j].scale && Be(received[head + 9..head + 13]) == All(t)[j].offset;
    hide HeaderStands, HeadOfNth;
    SampleWritten(StoredBlocks(Rssi, Seen(t, received), init, float), Rssi, WalkedChannels(t), n, k, i, float,
                  SampleAt(received, head, j < |t.wide|, i), Be(received[head + 5..head + 9]),
                  Be(received[head + 9..head + 13]));
  }

  // ---- the tables of angles ----

  lemma NthUnique(task: Task, cs: seq<Channel>, k: nat, j: nat)
    requires k < Count(task, cs) && j < |cs| && TaskOf(cs[j].name) == task && Count(task, cs[..j]) == k
    ensures Nth(task, cs, k) == j
  {
    hide Count, TaskOf, Nth;
    var i := Nth(task, cs, k);
    CountMore(task, cs, i);
    CountMore(task, cs, j);
    if i < j {
      CountMonotone(task, cs, i + 1, j);
    } else if j < i {
      CountMonotone(task, cs, j + 1, i);
    }
  }

  lemma LastSeen(task: Task, t: Telegram, received: seq<byte>)
    requires ReadsInside(t, |received|) && Count(task, WalkedChannels(t)) > 0
    ensures var cs, n := Seen(t, received), Count(task, WalkedChannels(t));
            Count(task, cs) == n && Nth(task, cs, n - 1) == Nth(task, WalkedChannels(t), n - 1)
  {
    hide TaskOf, SeenSamples, ReadsInside, Count, Nth;
    var cs, all := Seen(t, received), WalkedChannels(t);
    var j := Nth(task, all, Count(task, all) - 1);
    SeenCount(task, t, received, Walked(t, 0));
    SeenCount(task, t, received, j);
    assert cs[..Walked(t, 0)] == cs && all[..j] == All(t)[..j] && TaskOf(cs[j].name) == task;
    NthUnique(task, cs, Count(task, all) - 1, j);
  }

  /** The head of the last walked channel of a kind. */
  function LastHead(t: Telegram, task: Task): nat
    requires Count(task, WalkedChannels(t)) > 0
  {
    HeadOfNth(t, task, Count(task, WalkedChannels(t)) - 1)
  }

  /** Where sample i of the last channel of a kind, as seen, stands in the telegram. */
  lemma LastSource(task: Task, t: Telegram, received: seq<byte>, i: nat)
    requires TelegramOk(t) && At(received, 0, TelegramBytes(t)) && ReadsInside(t, |received|)
    requires Count(task, WalkedChannels(t)) > 0
    requires i < |All(t)[Nth(task, WalkedChannels(t), Count(task, WalkedChannels(t)) - 1)].samples|
    ensures var cs := Seen(t, received);
            && Count(task, cs) > 0
            && var j := Nth(task, cs, Count(task, cs) - 1);
               && j < |All(t)| && LastHead(t, task) == HeadStart(t, j) && |cs[j].samples| == |All(t)[j].samples|
               && cs[j] == All(t)[j].(samples := cs[j].samples) && HeaderStands(All(t)[j], received, LastHead(t, task))
               && i < |cs[j].samples| && IsTaken(cs[j].samples[i], received, LastHead(t, task), task, j < |t.wide|, i)
  {
    hide TelegramBytes, At, TelegramOk, Count, TaskOf, ReadsInside, Walked, HeadStart, HeaderStands, IsTaken,
         SeenSamples;
    var n := Count(task, WalkedChannels(t));
    var j := Nth(task, WalkedChannels(t), n - 1);
    LastSeen(task, t, received);
    hide Nth;
    ChannelStands(t, received, j);
    SampleTaken(t, received, j, i);
  }

  /**
   The elevation table holds the last VANG channel: entry i is its i-th pair of bytes times its scale plus its offset.
   */
  lemma ElevationFromBytes(t: Telegram, received: seq<byte>, table: seq<real>, i: nat, float: nat -> real)
    requires TelegramOk(t) && At(received, 0, TelegramBytes(t)) && ReadsInside(t, |received|)
    requires Count(Vang, WalkedChannels(t)) > 0 && LastVang(Seen(t, received), table, float)
    requires i < |All(t)[Nth(Vang, WalkedChannels(t), Count(Vang, WalkedChannels(t)) - 1)].samples|
    ensures var head := LastHead(t, Vang);
            var wide := Nth(Vang, WalkedChannels(t), Count(Vang, WalkedChannels(t)) - 1) < |t.wide|;
            && head + 23 + 2 * i <= |received| && i < |table|
            && var first, second := received[head + 21 + 2 * i], received[head + 22 + 2 * i];
               table[i] == (if wide then Pair(first, second) else Pair(second, first)) as real
                           * float(Be(received[head + 5..head + 9]))
                           + float(Be(received[head + 9..head + 13]))
  {
    hide TelegramBytes, At, TelegramOk, Count, TaskOf, ReadsInside, Walked, HeadStart, Seen, Be, Pair;
    LastSource(Vang, t, received, i);
    LastSeen(Vang, t, received);
    var cs := Seen(t, received);
    ChannelValue(Vang, cs[Nth(Vang, cs, Count(Vang, cs) - 1)], i, float);
    hide Nth, LastHead, ChannelValues;
  }

  lemma SumOfAngles(a: real, b: real, i: real, x: real, pi: real)
    ensures 0.0001 * a * pi / 180.0 + i * (0.0001 * b * pi / 180.0) + (0.0001 * pi / 180.0) * x
            == (a + i * b + x) / 10000.0 * pi / 180.0
  {
    var u := pi / 1800000.0;
    assert 0.0001 * a * pi / 180.0 == a * u;
    assert 0.0001 * b * pi / 180.0 == b * u;
    assert i * (b * u) == i * b * u;
    assert (a + i * b + x) / 10000.0 * pi / 180.0 == (a + i * b + x) * u;
  }

  /** An azimuth angle is start, steps and scaled sample, added in ten-thousandths of a degree, turned to radians. */
  lemma AzimuthInDegrees(startAngle: int, step: nat, sample: nat, i: nat, scale: real, offset: real, pi: real,
                         shift: real)
    ensures AzimuthValue(startAngle, step, sample, i, scale, offset, pi, shift)
            == (startAngle as real + i as real * step as real
                + (sample as real * scale + offset)) / 10000.0 * pi / 180.0
               + shift
  {
    SumOfAngles(startAngle as real, step as real, i as real, sample as real * scale + offset, pi);
  }

  /**
   The azimuth table holds the last ANGL channel: entry i is the start angle in its header, i steps, and sample i times
   its scale plus its offset, added in ten-thousandths of a degree, as radians from the angle shift on.
   */
  lemma AzimuthFromBytes(t: Telegram, received: seq<byte>, table: seq<real>, i: nat, float: nat -> real, pi: real,
                         shift: real)
    requires TelegramOk(t) && At(received, 0, TelegramBytes(t)) && ReadsInside(t, |received|)
    requires Count(Azimuth, WalkedChannels(t)) > 0 && LastAzimuth(Seen(t, received), table, float, pi, shift)
    requires i < |All(t)[Nth(Azimuth, WalkedChannels(t), Count(Azimuth, WalkedChannels(t)) - 1)].samples|
    ensures var head := LastHead(t, Azimuth);
            var wide := Nth(Azimuth, WalkedChannels(t), Count(Azimuth, WalkedChannels(t)) - 1) < |t.wide|;
            && head + 22 + i <= |received| && (wide ==> head + 23 + 2 * i <= |received|) && i < |table|
            && var negative := received[head + 13] >= 0x80;
               var startAngle := Be(received[head + 13..head + 17]) - if negative then 0x1_0000_0000 else 0;
               table[i] == (startAngle as real + i as real * Be(received[head + 17..head + 19]) as real
                            + (SampleAt(received, head, wide, i) as real * float(Be(received[head + 5..head + 9]))
                               + float(Be(received[head + 9..head + 13])))) / 10000.0 * pi / 180.0
                           + shift
  {
    hide TelegramBytes, At, TelegramOk, Count, TaskOf, ReadsInside, Walked, HeadStart, Seen, Be, IsTaken, SampleAt,
         AzimuthValue;
    LastSource(Azimuth, t, received, i);
    LastSeen(Azimuth, t, received);
    var cs := Seen(t, received);
    var c := cs[Nth(Azimuth, cs, Count(Azimuth, cs) - 1)];
    TakenIsSample(c.samples[i], received, LastHead(t, Azimuth), Azimuth,
                  Nth(Azimuth, WalkedChannels(t), Count(Azimuth, WalkedChannels(t)) - 1) < |t.wide|, i);
    hide Nth, LastHead;
    assert table[i] == AzimuthValue(c.startAngle, c.step, c.samples[i], i, float(c.scale), float(c.offset), pi, shift);
    var head := LastHead(t, Azimuth);
    AzimuthInDegrees(Be(received[head + 13..head + 17]) - if received[head + 13] < 0x80 then 0 else 0x1_0000_0000,
                     Be(received[head + 17..head + 19]), c.samples[i], i,
                     float(Be(received[head + 5..head + 9])), float(Be(received[head + 9..head + 13])), pi, shift);
  }
}
