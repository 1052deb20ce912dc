/** The channel part of an LMDscandata telegram: its layout, and the values it stands for. */
module LmdTelegram {
  import opened Arithmetic
  import opened Bytes
  import opened Fields

  /** Bytes of a channel before its samples: name 5, scale 4, offset 4, start angle 4, step 2, count 2. */
  const CHANNEL_HEADER: nat := 21
  const NAME_LENGTH: nat := 5
  /** Offset of the number of encoders. */
  const ENCODER_COUNT_OFFSET: nat := 60
  const SHORT_RANGE: nat := 0x8000

  datatype Task = Dist | Vang | Azimuth | Rssi | Idle

  const DIST: seq<byte> := [0x44, 0x49, 0x53, 0x54]
  const VANG: seq<byte> := [0x56, 0x41, 0x4E, 0x47]
  const ANGL: seq<byte> := [0x41, 0x4E, 0x47, 0x4C]
  const RSSI: seq<byte> := [0x52, 0x53, 0x53, 0x49]

  /** What is done with a channel, by the first four characters of its name. */
  function TaskOf(name: seq<byte>): Task {
    if DIST <= name then Dist
    else if VANG <= name then Vang
    else if ANGL <= name then Azimuth
    else if RSSI <= name then Rssi
    else Idle
  }

  datatype Channel = Channel(name: seq<byte>, scale: u32, offset: u32, startAngle: i32, step: u16, samples: seq<u16>)

  /** Bytes per sample. */
  type sampleWidth = w: int | w == 1 || w == 2 witness 1

  ghost predicate ChannelOk(c: Channel, w: sampleWidth) {
    && |c.name| == NAME_LENGTH && |c.samples| < 0x1_0000
    && (w == 1 ==> forall i :: 0 <= i < |c.samples| ==> c.samples[i] < 256)
  }

  /** Two bytes per sample, the high or the low one first. */
  function WideBytes(samples: seq<u16>, highFirst: bool): (s: seq<byte>)
    ensures |s| == 2 * |samples|
  {
    seq(2 * |samples|, k requires 0 <= k < 2 * |samples| =>
      if (k % 2 == 0) == highFirst then samples[k / 2] / 256 else samples[k / 2] % 256)
  }

  function NarrowBytes(samples: seq<u16>): (s: seq<byte>)
    ensures |s| == |samples|
  {
    seq(|samples|, k requires 0 <= k < |samples| => samples[k] % 256)
  }

  /** The samples on the wire, most significant byte first. */
  function SampleBytes(samples: seq<u16>, w: sampleWidth): (s: seq<byte>)
    ensures |s| == w * |samples|
  {
    if w == 1 then NarrowBytes(samples) else WideBytes(samples, true)
  }

  /** The samples as the parser leaves them: two-byte samples in the host's byte order. */
  function HostBytes(samples: seq<u16>, w: sampleWidth): (s: seq<byte>)
    ensures |s| == w * |samples|
  {
    if w == 1 then NarrowBytes(samples) else WideBytes(samples, false)
  }

  function Header(c: Channel): (h: seq<byte>)
    ensures |h| == |c.name| + 16
  {
    c.name + ToBe(c.scale, 4) + ToBe(c.offset, 4) + ToBe(Word(c.startAngle), 4) + ToBe(c.step, 2) + ToBe(|c.samples|, 2)
  }

  function Encode(c: Channel, w: sampleWidth): (e: seq<byte>)
    ensures |e| == |c.name| + 16 + w * |c.samples|
  {
    Header(c) + SampleBytes(c.samples, w)
  }

  function EncodeHost(c: Channel, w: sampleWidth): (e: seq<byte>)
    ensures |e| == |c.name| + 16 + w * |c.samples|
  {
    Header(c) + HostBytes(c.samples, w)
  }

  datatype Telegram = Telegram(header: seq<byte>, wide: seq<Channel>, narrow: seq<Channel>)

  /** The header is complete and announces its encoder blocks; counts fit their fields. */
  ghost predicate TelegramOk(t: Telegram) {
    && |t.header| >= ENCODER_COUNT_OFFSET + 2
    && |t.header| == ENCODER_COUNT_OFFSET + 2 + 6 * Be(t.header[ENCODER_COUNT_OFFSET..ENCODER_COUNT_OFFSET + 2])
    && |t.wide| < 0x1_0000 && |t.narrow| < 0x1_0000
    && (forall i :: 0 <= i < |t.wide| ==> ChannelOk(t.wide[i], 2))
    && (forall i :: 0 <= i < |t.narrow| ==> ChannelOk(t.narrow[i], 1))
  }

  function All(t: Telegram): seq<Channel> {
    t.wide + t.narrow
  }

  function WidthAt(t: Telegram, j: nat): sampleWidth {
    if j < |t.wide| then 2 else 1
  }

  /** The number of 8-bit channels stands before channel |wide|. */
  function Lead(t: Telegram, j: nat): seq<byte> {
    if j == |t.wide| then ToBe(|t.narrow|, 2) else []
  }

  /** The bytes from channel j on. */
  function Rest(t: Telegram, j: nat): seq<byte>
    requires j <= |All(t)|
    decreases |All(t)| - j
  {
    if j == |All(t)| then Lead(t, j) else Lead(t, j) + Encode(All(t)[j], WidthAt(t, j)) + Rest(t, j + 1)
  }

  /** Bytes taken by the channels before channel j, without the lead of channel j. */
  function Before(t: Telegram, j: nat): nat
    requires j <= |All(t)|
  {
    if j == 0 then 0
    else Before(t, j - 1) + |Lead(t, j - 1)| + |Encode(All(t)[j - 1], WidthAt(t, j - 1))|
  }

  function TelegramBytes(t: Telegram): seq<byte> {
    t.header + ToBe(|t.wide|, 2) + Rest(t, 0)
  }

  /** All bytes of a telegram end where its channels do. */
  lemma {:induction false} RestEnds(t: Telegram, j: nat)
    requires j <= |All(t)|
    ensures |Rest(t, j)| == Start(t, |All(t)|) - Start(t, j) + |Lead(t, |All(t)|)|
    decreases |All(t)| - j
  {
    hide Encode, Lead, All;
    if j < |All(t)| {
      RestEnds(t, j + 1);
    }
  }

  /** The channels before channel j with two-byte samples in host order. */
  function HostPart(t: Telegram, j: nat): seq<byte>
    requires j <= |All(t)|
  {
    if j == 0 then [] else HostPart(t, j - 1) + Lead(t, j - 1) + EncodeHost(All(t)[j - 1], WidthAt(t, j - 1))
  }

  /** Where channel j starts, its lead included. */
  function Start(t: Telegram, j: nat): nat
    requires j <= |All(t)|
  {
    |t.header| + 2 + Before(t, j)
  }

  lemma {:induction false} HostPartLength(t: Telegram, j: nat)
    requires j <= |All(t)|
    ensures |HostPart(t, j)| == Before(t, j)
  {
    hide EncodeHost, Encode, Lead, All;
    if j > 0 {
      HostPartLength(t, j - 1);
    }
  }

  lemma RestAt(buf: seq<byte>, pos: nat, t: Telegram, j: nat)
    requires j < |All(t)| && At(buf, pos, Rest(t, j))
    ensures var start := pos + |Lead(t, j)|;
            var e := Encode(All(t)[j], WidthAt(t, j));
            At(buf, pos, Lead(t, j)) && At(buf, start, e) && At(buf, start + |e|, Rest(t, j + 1))
  {
    hide At, Encode;
    var e := Encode(All(t)[j], WidthAt(t, j));
    AtConcat(buf, pos, Lead(t, j) + e, Rest(t, j + 1));
    AtConcat(buf, pos, Lead(t, j), e);
  }

  /** In a buffer with the telegram, channel j stands where the layout says. */
  lemma {:induction false} RestAtStart(buf: seq<byte>, t: Telegram, j: nat)
    requires At(buf, 0, TelegramBytes(t)) && j <= |All(t)|
    ensures At(buf, Start(t, j), Rest(t, j))
    ensures At(buf, 0, t.header) && At(buf, |t.header|, ToBe(|t.wide|, 2))
  {
    hide At, Encode;
    AtConcat(buf, 0, t.header + ToBe(|t.wide|, 2), Rest(t, 0));
    AtConcat(buf, 0, t.header, ToBe(|t.wide|, 2));
    if j > 0 {
      RestAtStart(buf, t, j - 1);
      RestAt(buf, Start(t, j - 1), t, j - 1);
    }
  }

  /** Where channel j's header stands, and where the next channel starts. */
  function HeadStart(t: Telegram, j: nat): nat
    requires j <= |All(t)|
  {
    Start(t, j) + if j == |t.wide| then 2 else 0
  }

  lemma NextStart(t: Telegram, j: nat)
    requires TelegramOk(t) && j < |All(t)|
    ensures ChannelOk(All(t)[j], WidthAt(t, j))
    ensures Start(t, j + 1) == HeadStart(t, j) + CHANNEL_HEADER + WidthAt(t, j) * |All(t)[j].samples|
  {
  }

  lemma ChannelAt(buf: seq<byte>, t: Telegram, j: nat)
    requires TelegramOk(t) && j < |All(t)| && At(buf, Start(t, j), Rest(t, j))
    ensures ChannelOk(All(t)[j], WidthAt(t, j))
    ensures At(buf, HeadStart(t, j), Encode(All(t)[j], WidthAt(t, j)))
    ensures At(buf, Start(t, j + 1), Rest(t, j + 1))
  {
    hide At, Encode, Rest;
    RestAt(buf, Start(t, j), t, j);
    NextStart(t, j);
  }

  /** The number of 8-bit channels stands behind the 16-bit channels. */
  lemma NarrowCountAt(buf: seq<byte>, t: Telegram)
    requires TelegramOk(t) && At(buf, 0, TelegramBytes(t))
    ensures var pos := Start(t, |t.wide|); pos + 2 <= |buf| && Be(buf[pos..pos + 2]) == |t.narrow|
  {
    hide TelegramBytes, Encode, At, ToBe, Be;
    var pos, lead := Start(t, |t.wide|), ToBe(|t.narrow|, 2);
    RestAtStart(buf, t, |t.wide|);
    if |t.narrow| > 0 {
      RestAt(buf, pos, t, |t.wide|);
    }
    AtSlice(buf, pos, lead);
    BeOfToBe(|t.narrow|, 2);
  }

  /** The fields of a channel header, at the offsets the parser uses. */
  lemma HeaderFields(buf: seq<byte>, pos: nat, c: Channel, w: sampleWidth)
    requires ChannelOk(c, w) && At(buf, pos, Encode(c, w))
    ensures pos + CHANNEL_HEADER + w * |c.samples| <= |buf|
    ensures buf[pos..pos + 5] == c.name
    ensures Be(buf[pos + 5..pos + 9]) == c.scale && Be(buf[pos + 9..pos + 13]) == c.offset
    ensures Be(buf[pos + 13..pos + 17]) == Word(c.startAngle) && Be(buf[pos + 17..pos + 19]) == c.step
    ensures Be(buf[pos + 19..pos + 21]) == |c.samples|
    ensures At(buf, pos + CHANNEL_HEADER, SampleBytes(c.samples, w))
  {
    hide Be, ToBe, SampleBytes;
    var a, b, d, e, f, g := c.name, ToBe(c.scale, 4), ToBe(c.offset, 4), ToBe(Word(c.startAngle), 4), ToBe(c.step, 2),
      ToBe(|c.samples|, 2);
    AtConcat(buf, pos, Header(c), SampleBytes(c.samples, w));
    AtConcat(buf, pos, a + b + d + e + f, g);
    AtConcat(buf, pos, a + b + d + e, f);
    AtConcat(buf, pos, a + b + d, e);
    AtConcat(buf, pos, a + b, d);
    AtConcat(buf, pos, a, b);
    BeOfToBe(c.scale, 4);
    BeOfToBe(c.offset, 4);
    BeOfToBe(Word(c.startAngle), 4);
    BeOfToBe(c.step, 2);
    BeOfToBe(|c.samples|, 2);
  }

  lemma BeOfToBe(n: nat, w: width)
    requires n < Limit(w)
    ensures Be(ToBe(n, w)) == n
  {
    LimitIsPow256(w);
    BeToBe(n, w);
  }

  // ---- what the channels stand for ----

  /** The walk ends at the first channel whose name is not known. */
  function Walked(t: Telegram, j: nat): (m: nat)
    requires j <= |All(t)|
    ensures j <= m <= |All(t)|
    ensures forall i :: j <= i < m ==> TaskOf(All(t)[i].name) != Idle
    ensures m < |All(t)| ==> TaskOf(All(t)[m].name) == Idle
    decreases |All(t)| - j
  {
    if j == |All(t)| || TaskOf(All(t)[j].name) == Idle then j else Walked(t, j + 1)
  }

  /** Every walked count can be read as a short. */
  ghost predicate ShortCounts(t: Telegram) {
    forall j :: 0 <= j < Walked(t, 0) ==> |All(t)[j].samples| < SHORT_RANGE
  }

  /** The walked channels share one count. */
  ghost predicate Uniform(t: Telegram, n: nat) {
    forall j :: 0 <= j < Walked(t, 0) ==> |All(t)[j].samples| == n
  }

  /** Distances and elevation angles stand in 16-bit channels. */
  ghost predicate WideData(t: Telegram) {
    forall j :: |t.wide| <= j < Walked(t, 0) ==> TaskOf(All(t)[j].name) != Dist && TaskOf(All(t)[j].name) != Vang
  }

  /** Distances are scaled from millimetres to metres. */
  function Factor(task: Task, scale: real): real {
    if task == Dist then 0.001 * scale else scale
  }

  function Scaled(samples: seq<u16>, factor: real, offset: real): (v: seq<real>)
    ensures |v| == |samples|
  {
    seq(|samples|, i requires 0 <= i < |samples| => samples[i] as real * factor + offset)
  }

  /** The values of a channel; float gives the number a 32-bit pattern stands for. */
  function ChannelValues(task: Task, c: Channel, float: nat -> real): (v: seq<real>)
    ensures |v| == |c.samples|
  {
    Scaled(c.samples, Factor(task, float(c.scale)), float(c.offset))
  }

  function Count(task: Task, cs: seq<Channel>): (n: nat)
    ensures n <= |cs|
  {
    if cs == [] then 0 else Count(task, cs[..|cs| - 1]) + if TaskOf(cs[|cs| - 1].name) == task then 1 else 0
  }

  /** The values of all channels of one kind, one channel after the other. */
  function Values(task: Task, cs: seq<Channel>, float: nat -> real): seq<real> {
    if cs == [] then []
    else
      Values(task, cs[..|cs| - 1], float)
      + if TaskOf(cs[|cs| - 1].name) == task then ChannelValues(task, cs[|cs| - 1], float) else []
  }

  /** Index of the k-th channel of a kind. */
  function Nth(task: Task, cs: seq<Channel>, k: nat): (j: nat)
    requires k < Count(task, cs)
    ensures j < |cs| && TaskOf(cs[j].name) == task && Count(task, cs[..j]) == k
  {
    var front := cs[..|cs| - 1];
    if k < Count(task, front) then
      var j := Nth(task, front, k);
      assert front[..j] == cs[..j];
      j
    else |cs| - 1
  }

  ghost predicate SameCount(task: Task, cs: seq<Channel>, n: nat) {
    forall j :: 0 <= j < |cs| && TaskOf(cs[j].name) == task ==> |cs[j].samples| == n
  }

  lemma {:induction false} ValuesLength(task: Task, cs: seq<Channel>, n: nat, float: nat -> real)
    requires SameCount(task, cs, n)
    ensures |Values(task, cs, float)| == n * Count(task, cs)
  {
    hide ChannelValues, TaskOf;
    if cs != [] {
      ValuesLength(task, cs[..|cs| - 1], n, float);
      assert n * (Count(task, cs[..|cs| - 1]) + 1) == n * Count(task, cs[..|cs| - 1]) + n;
    }
  }

  /** Value pos is sample pos - n * k of the k-th channel of its kind, scaled. */
  lemma {:induction false} ValueAtPosition(task: Task, cs: seq<Channel>, n: nat, k: nat, pos: nat, float: nat -> real)
    requires SameCount(task, cs, n) && k < Count(task, cs)
    requires n * k <= pos < n * (k + 1)
    ensures pos < |Values(task, cs, float)| && |cs[Nth(task, cs, k)].samples| == n
    ensures Values(task, cs, float)[pos] == ChannelValues(task, cs[Nth(task, cs, k)], float)[pos - n * k]
  {
    hide ChannelValues, TaskOf;
    var front, last := cs[..|cs| - 1], cs[|cs| - 1];
    ValuesLength(task, front, n, float);
    if k < Count(task, front) {
      ValueAtPosition(task, front, n, k, pos, float);
    } else {
      assert Count(task, front) == k;
      assert |Values(task, front, float)| == n * k;
      assert n * (k + 1) == n * k + n;
    }
  }

  /**
   Value k * n + i is sample i of the k-th channel of the kind times its scale, of distances taken as millimetres, plus
   its offset.
   */
  ghost predicate IsSample(values: seq<real>, task: Task, cs: seq<Channel>, n: nat, k: nat, i: nat, float: nat -> real)
    requires k < Count(task, cs)
  {
    var c, pos := cs[Nth(task, cs, k)], k * n + i;
    && |c.samples| == n && i < n && 0 <= pos < |values|
    && values[pos] == (if task == Dist then c.samples[i] as real * float(c.scale) / 1000.0
                       else c.samples[i] as real * float(c.scale))
                      + float(c.offset)
  }

  lemma ValueAt(task: Task, cs: seq<Channel>, n: nat, k: nat, i: nat, float: nat -> real)
    requires SameCount(task, cs, n) && k < Count(task, cs) && i < n
    ensures |Values(task, cs, float)| == n * Count(task, cs)
    ensures IsSample(Values(task, cs, float), task, cs, n, k, i, float)
  {
    hide Values, ChannelValues, TaskOf, Nth, Count;
    ValuesLength(task, cs, n, float);
    CellInside(k, k + 1, n, i);
    ValueAtPosition(task, cs, n, k, k * n + i, float);
    ChannelValue(task, cs[Nth(task, cs, k)], i, float);
  }

  lemma ChannelValue(task: Task, c: Channel, i: nat, float: nat -> real)
    requires i < |c.samples|
    ensures ChannelValues(task, c, float)[i]
            == (if task == Dist then c.samples[i] as real * float(c.scale) / 1000.0
                else c.samples[i] as real * float(c.scale))
               + float(c.offset)
  {
    Thousandth(c.samples[i] as real, float(c.scale));
  }

  lemma Thousandth(sample: real, scale: real)
    ensures sample * (0.001 * scale) == sample * scale / 1000.0
  {
    assert sample * (0.001 * scale) == 0.001 * (sample * scale);
  }

  lemma CellInside(k: nat, count: nat, n: nat, i: nat)
    requires k < count && i < n
    ensures k * n + i < n * count && k * n == n * k
  {
    MultiplyMonotone(k + 1, count, n);
  }

  // ---- the buffer during the fill pass ----

  function HostPrefix(t: Telegram, j: nat): seq<byte>
    requires j <= |All(t)|
  {
    t.header + ToBe(|t.wide|, 2) + HostPart(t, j)
  }

  /** The buffer with the channels before channel j in host order and everything else as received. */
  ghost predicate HostUpTo(t: Telegram, j: nat, received: seq<byte>, buf: seq<byte>)
    requires j <= |All(t)|
  {
    && Start(t, j) <= |received| == |buf|
    && buf == HostPrefix(t, j) + received[Start(t, j)..]
  }

  lemma HostPrefixLength(t: Telegram, j: nat)
    requires j <= |All(t)|
    ensures |HostPrefix(t, j)| == Start(t, j)
  {
    HostPartLength(t, j);
  }

  lemma HostAtStart(t: Telegram, received: seq<byte>)
    requires At(received, 0, TelegramBytes(t))
    ensures HostUpTo(t, 0, received, received)
  {
    hide At, Rest, ToBe;
    var count := ToBe(|t.wide|, 2);
    AtConcat(received, 0, t.header + count, Rest(t, 0));
    AtSlice(received, 0, t.header + count);
    assert received == received[0..|t.header| + 2] + received[|t.header| + 2..];
    assert HostPrefix(t, 0) == t.header + count;
  }

  /** What is still to be read has not changed. */
  lemma UnreadSame(t: Telegram, j: nat, received: seq<byte>, buf: seq<byte>, pos: nat, e: seq<byte>)
    requires j <= |All(t)| && HostUpTo(t, j, received, buf) && Start(t, j) <= pos
    ensures At(buf, pos, e) <==> At(received, pos, e)
  {
    HostPrefixLength(t, j);
    if pos + |e| <= |buf| {
      assert buf[pos..pos + |e|] == received[pos..pos + |e|];
    }
  }

  lemma SplitAround(prefix: seq<byte>, lead: seq<byte>, head: seq<byte>, samples: seq<byte>, host: seq<byte>,
                    tail: seq<byte>)
    requires |host| == |samples|
    ensures var buf := prefix + (lead + head + samples + tail);
            var pos := |prefix| + |lead| + |head|;
            buf[..pos] + host + buf[pos + |samples|..] == prefix + lead + (head + host) + tail
  {
    var buf := prefix + (lead + head + samples + tail);
    var pos := |prefix| + |lead| + |head|;
    assert buf[..pos] == prefix + lead + head;
    assert buf[pos + |samples|..] == tail;
  }

  lemma ReceivedSplit(t: Telegram, j: nat, received: seq<byte>)
    requires TelegramOk(t) && j < |All(t)| && At(received, Start(t, j), Rest(t, j))
    ensures Start(t, j + 1) <= |received|
    ensures var c, w := All(t)[j], WidthAt(t, j);
            received[Start(t, j)..]
            == Lead(t, j) + Header(c) + SampleBytes(c.samples, w) + received[Start(t, j + 1)..]
  {
    hide At, Rest, Header, SampleBytes, Lead;
    var c, w := All(t)[j], WidthAt(t, j);
    RestAt(received, Start(t, j), t, j);
    var lead, e := Lead(t, j), Encode(c, w);
    AtSlice(received, Start(t, j), lead);
    AtSlice(received, Start(t, j) + |lead|, e);
    AtSlice(received, Start(t, j + 1), Rest(t, j + 1));
    var a, b, d := Start(t, j), Start(t, j) + |lead|, Start(t, j + 1);
    assert received[a..] == received[a..b] + received[b..d] + received[d..];
    assert lead + (Header(c) + SampleBytes(c.samples, w)) == lead + Header(c) + SampleBytes(c.samples, w);
  }

  /** Channel j brought to host order: the buffer is the next one of the fill pass. */
  lemma HostStep(t: Telegram, j: nat, received: seq<byte>, buf: seq<byte>, swapped: seq<byte>)
    requires TelegramOk(t) && j < |All(t)| && At(received, Start(t, j), Rest(t, j))
    requires HostUpTo(t, j, received, buf)
    requires var c, w := All(t)[j], WidthAt(t, j);
             var pos := HeadStart(t, j) + CHANNEL_HEADER;
             && pos + w * |c.samples| <= |buf|
             && swapped == buf[..pos] + HostBytes(c.samples, w) + buf[pos + w * |c.samples|..]
    ensures HostUpTo(t, j + 1, received, swapped)
  {
    hide At, Rest, Header, SampleBytes, HostBytes, HostPart, Before;
    var c, w := All(t)[j], WidthAt(t, j);
    ReceivedSplit(t, j, received);
    NextStart(t, j);
    HostPrefixLength(t, j);
    SplitAround(HostPrefix(t, j), Lead(t, j), Header(c), SampleBytes(c.samples, w), HostBytes(c.samples, w),
                received[Start(t, j + 1)..]);
    HostPrefixMore(t, j);
  }

  lemma HostPrefixMore(t: Telegram, j: nat)
    requires j < |All(t)|
    ensures var c, w := All(t)[j], WidthAt(t, j);
            HostPrefix(t, j + 1) == HostPrefix(t, j) + Lead(t, j) + (Header(c) + HostBytes(c.samples, w))
  {
    hide Header, HostBytes, Lead;
  }

  // ---- counting and collecting, one channel more ----

  lemma TakeOneMore(cs: seq<Channel>, j: nat)
    requires j < |cs|
    ensures cs[..j + 1][..j] == cs[..j] && cs[..j + 1][j] == cs[j]
  {
  }

  lemma CountMore(task: Task, cs: seq<Channel>, j: nat)
    requires j < |cs|
    ensures Count(task, cs[..j + 1]) == Count(task, cs[..j]) + if TaskOf(cs[j].name) == task then 1 else 0
  {
    TakeOneMore(cs, j);
  }

  lemma {:induction false} CountMonotone(task: Task, cs: seq<Channel>, i: nat, j: nat)
    requires i <= j <= |cs|
    ensures Count(task, cs[..i]) <= Count(task, cs[..j])
    decreases j
  {
    hide Count, TaskOf;
    if i < j {
      CountMore(task, cs, j - 1);
      CountMonotone(task, cs, i, j - 1);
    }
  }

  /** The walked channels have the shared count. */
  lemma WalkedSameCount(task: Task, t: Telegram, n: nat, j: nat)
    requires Uniform(t, n) && j <= Walked(t, 0)
    ensures SameCount(task, All(t)[..j], n)
  {
    forall i | 0 <= i < j
      ensures |All(t)[..j][i].samples| == n
    {
      assert All(t)[..j][i] == All(t)[i];
    }
  }

  lemma AtIndex(buf: seq<byte>, pos: nat, e: seq<byte>)
    requires At(buf, pos, e)
    ensures pos + |e| <= |buf| && forall p :: pos <= p < pos + |e| ==> buf[p] == e[p - pos]
  {
    forall p | pos <= p < pos + |e|
      ensures buf[p] == e[p - pos]
    {
      assert buf[pos..pos + |e|][p - pos] == buf[p];
    }
  }

  /** Azimuth angles: evenly spaced from the start angle, each corrected by its scaled sample. */
  function AzimuthValues(c: Channel, float: nat -> real, pi: real, shift: real): (v: seq<real>)
    ensures |v| == |c.samples|
  {
    seq(|c.samples|, i requires 0 <= i < |c.samples| =>
      AzimuthValue(c.startAngle, c.step, c.samples[i], i, float(c.scale), float(c.offset), pi, shift))
  }

  function AzimuthValue(startAngle: int, step: nat, sample: nat, i: nat, scale: real, offset: real, pi: real,
                        shift: real): real {
    (0.0001 * (startAngle as real) * pi / 180.0 + shift)
    + i as real * (0.0001 * (step as real) * pi / 180.0)
    + (0.0001 * pi / 180.0) * (sample as real * scale + offset)
  }

  /** The table of a kind holds what its last channel so far stands for. */
  ghost predicate LastVang(cs: seq<Channel>, table: seq<real>, float: nat -> real) {
    var n := Count(Vang, cs);
    n > 0 ==> table == ChannelValues(Vang, cs[Nth(Vang, cs, n - 1)], float)
  }

  ghost predicate LastAzimuth(cs: seq<Channel>, table: seq<real>, float: nat -> real, pi: real, shift: real) {
    var n := Count(Azimuth, cs);
    n > 0 ==> table == AzimuthValues(cs[Nth(Azimuth, cs, n - 1)], float, pi, shift)
  }

  lemma LastMore(cs: seq<Channel>, j: nat, vang: seq<real>, azimuth: seq<real>, float: nat -> real, pi: real,
                 shift: real)
    requires j < |cs|
    requires if TaskOf(cs[j].name) == Vang then vang == ChannelValues(Vang, cs[j], float)
             else LastVang(cs[..j], vang, float)
    requires if TaskOf(cs[j].name) == Azimuth then azimuth == AzimuthValues(cs[j], float, pi, shift)
             else LastAzimuth(cs[..j], azimuth, float, pi, shift)
    ensures LastVang(cs[..j + 1], vang, float) && LastAzimuth(cs[..j + 1], azimuth, float, pi, shift)
  {
    hide ChannelValues, AzimuthValues, TaskOf;
    TakeOneMore(cs, j);
  }

  // ---- the arrays a pass fills ----

  function Overwrite(s: seq<real>, start: nat, v: seq<real>): (r: seq<real>)
    requires start + |v| <= |s|
    ensures |r| == |s|
  {
    s[..start] + v + s[start + |v|..]
  }

  /** Each channel of a kind has its block, the size of its own count, inside an array. */
  predicate BlocksInside(task: Task, cs: seq<Channel>, size: nat) {
    cs == []
    || (&& BlocksInside(task, cs[..|cs| - 1], size)
        && (TaskOf(cs[|cs| - 1].name) == task ==> |cs[|cs| - 1].samples| * Count(task, cs) <= size))
  }

  /** The array after all channels of a kind are stored, the k-th one behind k - 1 blocks of its own size. */
  function StoredBlocks(task: Task, cs: seq<Channel>, init: seq<real>, float: nat -> real): (s: seq<real>)
    requires BlocksInside(task, cs, |init|)
    ensures |s| == |init|
  {
    if cs == [] then init
    else
      var front, last := StoredBlocks(task, cs[..|cs| - 1], init, float), cs[|cs| - 1];
      if TaskOf(last.name) == task then
        BlockStart(|last.samples|, Count(task, cs));
        Overwrite(front, |last.samples| * (Count(task, cs) - 1), ChannelValues(task, last, float))
      else front
  }

  lemma BlockStart(n: nat, count: nat)
    requires count > 0
    ensures n * (count - 1) + n == n * count && n * (count - 1) >= 0
  {
  }

  lemma StoredMore(task: Task, cs: seq<Channel>, j: nat, init: seq<real>, float: nat -> real)
    requires j < |cs| && BlocksInside(task, cs[..j + 1], |init|)
    ensures BlocksInside(task, cs[..j], |init|)
    ensures var front := StoredBlocks(task, cs[..j], init, float);
            var n, count := |cs[j].samples|, Count(task, cs[..j + 1]);
            if TaskOf(cs[j].name) == task then
              count > 0 && 0 <= n * (count - 1) && n * (count - 1) + n <= |init|
              && StoredBlocks(task, cs[..j + 1], init, float)
                 == Overwrite(front, n * (count - 1), ChannelValues(task, cs[j], float))
            else StoredBlocks(task, cs[..j + 1], init, float) == front
  {
    hide ChannelValues, TaskOf, Overwrite;
    TakeOneMore(cs, j);
    if TaskOf(cs[j].name) == task {
      BlockStart(|cs[j].samples|, Count(task, cs[..j + 1]));
    }
  }

  /** The array index that sample i of channel j is written to. */
  function WriteIndex(task: Task, cs: seq<Channel>, j: nat, i: nat): int
    requires j < |cs|
  {
    i + |cs[j].samples| * (Count(task, cs[..j + 1]) - 1)
  }

  ghost predicate WritesInside(task: Task, cs: seq<Channel>, size: nat) {
    forall j, i :: 0 <= j < |cs| && TaskOf(cs[j].name) == task && 0 <= i < |cs[j].samples| ==>
      0 <= WriteIndex(task, cs, j, i) < size
  }

  ghost predicate ChannelInside(task: Task, cs: seq<Channel>, j: nat, size: nat)
    requires j < |cs|
  {
    forall i :: 0 <= i < |cs[j].samples| ==> 0 <= WriteIndex(task, cs, j, i) < size
  }

  lemma ChannelInsideExactly(task: Task, cs: seq<Channel>, j: nat, size: nat)
    requires j < |cs| && TaskOf(cs[j].name) == task
    ensures |cs[j].samples| * Count(task, cs[..j + 1]) <= size <==> ChannelInside(task, cs, j, size)
  {
    hide TaskOf;
    var n, count := |cs[j].samples|, Count(task, cs[..j + 1]);
    CountMore(task, cs, j);
    BlockStart(n, count);
    if n * count > size {
      assert WriteIndex(task, cs, j, n - 1) >= size;
    }
  }

  lemma WriteIndexMore(task: Task, cs: seq<Channel>, more: Channel, j: nat, i: nat)
    requires j < |cs|
    ensures WriteIndex(task, cs + [more], j, i) == WriteIndex(task, cs, j, i)
  {
    assert (cs + [more])[..j + 1] == cs[..j + 1];
  }

  lemma WritesInsideMore(task: Task, cs: seq<Channel>, last: Channel, size: nat)
    ensures WritesInside(task, cs + [last], size)
            <==> && WritesInside(task, cs, size)
                 && (TaskOf(last.name) == task ==> ChannelInside(task, cs + [last], |cs|, size))
  {
    hide TaskOf, WriteIndex;
    var all := cs + [last];
    forall j, i | 0 <= j < |cs| && 0 <= i
      ensures all[j] == cs[j] && WriteIndex(task, all, j, i) == WriteIndex(task, cs, j, i)
    {
      WriteIndexMore(task, cs, last, j, i);
    }
    if WritesInside(task, cs, size) && (TaskOf(last.name) == task ==> ChannelInside(task, all, |cs|, size)) {
      forall j, i | 0 <= j < |all| && TaskOf(all[j].name) == task && 0 <= i < |all[j].samples|
        ensures 0 <= WriteIndex(task, all, j, i) < size
      {
        assert j < |cs| ==> 0 <= WriteIndex(task, cs, j, i) < size;
      }
    }
    if WritesInside(task, all, size) {
      forall j, i | 0 <= j < |cs| && TaskOf(cs[j].name) == task && 0 <= i < |cs[j].samples|
        ensures 0 <= WriteIndex(task, cs, j, i) < size
      {
        assert 0 <= WriteIndex(task, all, j, i) < size;
      }
    }
  }

  /** Every write of a pass is inside the array if and only if every block is. */
  lemma {:induction false} BlocksInsideExactly(task: Task, cs: seq<Channel>, size: nat)
    ensures BlocksInside(task, cs, size) <==> WritesInside(task, cs, size)
  {
    hide Count, TaskOf, ChannelInside, WriteIndex;
    if cs != [] {
      var front, last := cs[..|cs| - 1], cs[|cs| - 1];
      BlocksInsideExactly(task, front, size);
      assert front + [last] == cs && cs[..|cs|] == cs;
      WritesInsideMore(task, front, last, size);
      if TaskOf(last.name) == task {
        ChannelInsideExactly(task, cs, |cs| - 1, size);
      }
    }
  }

  /** With one common count the blocks lie one behind the other: the array holds exactly the values. */
  lemma {:induction false} StoredPrefix(task: Task, cs: seq<Channel>, n: nat, init: seq<real>, float: nat -> real)
    requires SameCount(task, cs, n) && n * Count(task, cs) <= |init|
    ensures BlocksInside(task, cs, |init|)
    ensures StoredBlocks(task, cs, init, float)[..n * Count(task, cs)] == Values(task, cs, float)
  {
    hide ChannelValues, TaskOf;
    if cs != [] {
      var front := cs[..|cs| - 1];
      if TaskOf(cs[|cs| - 1].name) == task {
        BlockStart(n, Count(task, cs));
      }
      StoredPrefix(task, front, n, init, float);
    }
  }

  // ---- the samples as the parser sees them ----

  /** Distances and elevation angles are always read as two bytes per sample, the rest as wide as they are. */
  function ReadWidth(task: Task, w: sampleWidth): sampleWidth {
    if task == Dist || task == Vang then 2 else w
  }

  /** Sample i as the host reads it. */
  function DataAt(buf: seq<byte>, start: nat, i: nat, w: sampleWidth): u16
    requires start + w * (i + 1) <= |buf|
  {
    if w == 2 then
      var low: nat, high: nat := buf[start + 2 * i], buf[start + 2 * i + 1];
      low + 256 * high
    else buf[start + i]
  }

  ghost predicate DataIs(buf: seq<byte>, start: nat, w: sampleWidth, samples: seq<u16>) {
    && start + w * |samples| <= |buf|
    && forall i :: 0 <= i < |samples| ==> start + w * (i + 1) <= |buf| && DataAt(buf, start, i, w) == samples[i]
  }

  lemma HostDataIs(buf: seq<byte>, start: nat, w: sampleWidth, samples: seq<u16>)
    requires At(buf, start, HostBytes(samples, w))
    requires w == 1 ==> forall i :: 0 <= i < |samples| ==> samples[i] < 256
    ensures DataIs(buf, start, w, samples)
  {
    hide At;
    var host := HostBytes(samples, w);
    AtIndex(buf, start, host);
    forall i | 0 <= i < |samples|
      ensures start + w * (i + 1) <= |buf| && DataAt(buf, start, i, w) == samples[i]
    {
      if w == 2 {
        assert host[2 * i] == samples[i] % 256 && host[2 * i + 1] == samples[i] / 256;
      } else {
        assert host[i] == samples[i] % 256;
      }
    }
  }

  function DataStart(t: Telegram, j: nat): nat
    requires j <= |All(t)|
  {
    HeadStart(t, j) + CHANNEL_HEADER
  }

  /** What is read as two bytes per sample in an 8-bit channel is inside the buffer. */
  ghost predicate ReadsInside(t: Telegram, size: nat) {
    forall j :: |t.wide| <= j < Walked(t, 0) ==>
      DataStart(t, j) + ReadWidth(TaskOf(All(t)[j].name), 1) * |All(t)[j].samples| <= size
  }

  function Pairs(buf: seq<byte>, start: nat, n: nat): (s: seq<u16>)
    requires start + 2 * n <= |buf|
    ensures |s| == n
  {
    seq(n, i requires 0 <= i < n => DataAt(buf, start, i, 2))
  }

  /** The samples of channel j as the parser sees them: of 8-bit distances it reads pairs of bytes. */
  function SeenSamples(t: Telegram, received: seq<byte>, j: nat): (s: seq<u16>)
    requires j < Walked(t, 0) && ReadsInside(t, |received|)
    ensures |s| == |All(t)[j].samples|
  {
    var c := All(t)[j];
    if j < |t.wide| || ReadWidth(TaskOf(c.name), 1) == 1 then c.samples
    else Pairs(received, DataStart(t, j), |c.samples|)
  }

  /** The walked channels as the parser sees them. */
  function Seen(t: Telegram, received: seq<byte>): (cs: seq<Channel>)
    requires ReadsInside(t, |received|)
    ensures |cs| == Walked(t, 0)
  {
    seq(Walked(t, 0), j requires 0 <= j < Walked(t, 0) => All(t)[j].(samples := SeenSamples(t, received, j)))
  }

  lemma SeenIsSent(t: Telegram, received: seq<byte>)
    requires ReadsInside(t, |received|) && WideData(t)
    ensures Seen(t, received) == All(t)[..Walked(t, 0)]
  {
  }

  /** Seeing changes neither names nor counts. */
  lemma {:induction false} SeenCount(task: Task, t: Telegram, received: seq<byte>, j: nat)
    requires ReadsInside(t, |received|) && j <= Walked(t, 0)
    ensures Count(task, Seen(t, received)[..j]) == Count(task, All(t)[..j])
  {
    hide TaskOf, SeenSamples;
    if j > 0 {
      SeenCount(task, t, received, j - 1);
      CountMore(task, Seen(t, received), j - 1);
      CountMore(task, All(t), j - 1);
    }
  }

  // ---- which byte of the received telegram stands where ----

  /** Bytes of 16-bit samples before channel j trade places in pairs; all others stay. */
  function SwappedFrom(t: Telegram, j: nat, p: nat): nat
    requires j <= |All(t)|
  {
    if j == 0 then p
    else
      if Partner(t, j - 1, p) != p then Partner(t, j - 1, p) else SwappedFrom(t, j - 1, p)
  }

  /** The other byte of a two-byte sample in the data of channel j, any other position itself. */
  function Partner(t: Telegram, j: nat, p: nat): nat
    requires j < |All(t)|
  {
    var start := DataStart(t, j);
    if WidthAt(t, j) == 2 && start <= p < start + 2 * |All(t)[j].samples| then
      if (p - start) % 2 == 0 then p + 1 else p - 1
    else p
  }

  lemma PairSwapped(samples: seq<u16>, k: nat)
    requires k < |samples|
    ensures WideBytes(samples, false)[2 * k] == WideBytes(samples, true)[2 * k + 1]
    ensures WideBytes(samples, false)[2 * k + 1] == WideBytes(samples, true)[2 * k]
  {
  }

  lemma HostByte(samples: seq<u16>, w: sampleWidth, k: nat)
    requires k < w * |samples|
    ensures w == 2 ==> (if k % 2 == 0 then k + 1 else k - 1) < 2 * |samples|
    ensures HostBytes(samples, w)[k]
            == SampleBytes(samples, w)[if w == 1 then k else if k % 2 == 0 then k + 1 else k - 1]
  {
    if w == 2 {
      PairSwapped(samples, k / 2);
    }
  }

  ghost function HostBuffer(t: Telegram, j: nat, received: seq<byte>): (b: seq<byte>)
    requires j <= |All(t)| && Start(t, j) <= |received|
    ensures |b| == |received|
  {
    HostPrefixLength(t, j);
    HostPrefix(t, j) + received[Start(t, j)..]
  }

  ghost predicate SameOrMoved(t: Telegram, j: nat, received: seq<byte>, before: seq<byte>, after: seq<byte>, p: nat)
    requires j < |All(t)|
  {
    && p < |before| == |after| == |received| && Partner(t, j, p) < |received|
    && after[p] == if Partner(t, j, p) == p then before[p] else received[Partner(t, j, p)]
  }

  /** Bringing one channel to host order moves the bytes of its two-byte samples, and no others. */
  lemma HostBufferStep(t: Telegram, j: nat, received: seq<byte>, p: nat)
    requires TelegramOk(t) && j < |All(t)| && At(received, Start(t, j), Rest(t, j)) && p < |received|
    requires Start(t, j) <= |received| && Start(t, j + 1) <= |received|
    ensures SameOrMoved(t, j, received, HostBuffer(t, j, received), HostBuffer(t, j + 1, received), p)
  {
    hide At, Rest, Header, SampleBytes, HostBytes, HostPrefix, Lead, Start, TelegramOk, All;
    var c, w, d := All(t)[j], WidthAt(t, j), DataStart(t, j);
    ReceivedSplit(t, j, received);
    NextStart(t, j);
    HostPrefixLength(t, j);
    HostPrefixLength(t, j + 1);
    HostPrefixMore(t, j);
    LeadLength(t, j);
    var wire, host := SampleBytes(c.samples, w), HostBytes(c.samples, w);
    Spliced(HostPrefix(t, j), Lead(t, j), Header(c), wire, host, received[Start(t, j + 1)..]);
    if d <= p < d + |wire| {
      HostByte(c.samples, w, p - d);
      var q := if w == 1 then p else if (p - d) % 2 == 0 then p + 1 else p - 1;
      assert Partner(t, j, p) == q;
      assert received[q] == received[Start(t, j)..][q - Start(t, j)] == wire[q - d];
    } else {
      assert Partner(t, j, p) == p;
    }
  }

  /** A replaced middle part, byte by byte. */
  lemma Spliced(prefix: seq<byte>, lead: seq<byte>, head: seq<byte>, wire: seq<byte>, host: seq<byte>, tail: seq<byte>)
    requires |wire| == |host|
    ensures var before := prefix + (lead + head + wire + tail);
            var after := prefix + lead + (head + host) + tail;
            var start := |prefix| + |lead| + |head|;
            && |after| == |before|
            && (forall p :: 0 <= p < start || start + |wire| <= p < |before| ==> after[p] == before[p])
            && (forall p :: start <= p < start + |wire| ==> after[p] == host[p - start] && before[p] == wire[p - start])
  {
  }

  lemma LeadLength(t: Telegram, j: nat)
    ensures |Lead(t, j)| == if j == |t.wide| then 2 else 0
  {
  }

  /**
   The buffer with the channels before channel j in host order differs from the received one only by
   one exchange of two bytes per 16-bit sample.
   */
  lemma {:induction false} HostUpToExactly(t: Telegram, j: nat, received: seq<byte>, buf: seq<byte>, p: nat)
    requires TelegramOk(t) && At(received, 0, TelegramBytes(t)) && j <= |All(t)|
    requires HostUpTo(t, j, received, buf) && p < |buf|
    ensures SwappedFrom(t, j, p) < |received| && buf[p] == received[SwappedFrom(t, j, p)]
  {
    hide At, TelegramBytes, Rest, HostPrefix, All, Start, TelegramOk, Partner;
    if j == 0 {
      HostAtStart(t, received);
      assert buf == received;
    } else {
      RestAtStart(received, t, j - 1);
      StartMonotone(t, j - 1, j);
      HostBufferStep(t, j - 1, received, p);
      HostUpToExactly(t, j - 1, received, HostBuffer(t, j - 1, received), p);
    }
  }

  lemma {:induction false} StartMonotone(t: Telegram, i: nat, j: nat)
    requires TelegramOk(t) && i <= j <= |All(t)|
    ensures Start(t, i) <= Start(t, j)
    decreases j
  {
    hide Start, TelegramOk;
    if i < j {
      StartMonotone(t, i, j - 1);
      NextStart(t, j - 1);
    }
  }

  /** Behind the 16-bit channels nothing moves. */
  lemma {:induction false} NarrowStays(t: Telegram, j: nat, p: nat)
    requires TelegramOk(t) && j <= |All(t)| && p >= Start(t, |t.wide|)
    ensures SwappedFrom(t, j, p) == p
  {
    hide Start, TelegramOk;
    if j > 0 {
      NarrowStays(t, j - 1, p);
      if j - 1 < |t.wide| {
        NextStart(t, j - 1);
        StartMonotone(t, j, |t.wide|);
      }
    }
  }
}
