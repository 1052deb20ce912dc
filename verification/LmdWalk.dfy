/** How the pre-scan and the two passes walk over the channels of any buffer, and when they keep to the layout. */
module LmdWalk {
  import opened Bytes
  import opened Fields
  import opened LmdTelegram

  /** A 16-bit pattern read as a short. */
  function ToShort(n: nat): int
    requires n < 2 * SHORT_RANGE
  {
    if n < SHORT_RANGE then n else n - 2 * SHORT_RANGE
  }

  lemma TwoBytes(s: seq<byte>)
    requires |s| == 2
    ensures Be(s) < 2 * SHORT_RANGE
  {
    BeBound(s);
    assert Pow256(2) == 256 * Pow256(1);
  }

  /** Bytes copied out of the buffer, swapped in place and read by the host. */
  method ReadSwapped(buf: array<byte>, pos: nat, size: nat) returns (value: nat)
    requires pos + size <= buf.Length
    ensures value == Be(buf[pos..pos + size])
  {
    var dst := new byte[size](i requires 0 <= i < size reads buf => buf[pos + i]);
    ghost var wire := buf[pos..pos + size];
    assert dst[..] == wire;
    SwapEndian(dst);
    LeReversed(wire);
    value := Le(dst[..]);
  }

  // ---- the pre-scan ----

  /** Where the pre-scan stands after j channels; it takes counts without sign. */
  function SkipPosition(buf: seq<byte>, start: nat, j: nat): nat {
    if j == 0 then start
    else
      var pos := SkipPosition(buf, start, j - 1);
      if pos + CHANNEL_HEADER <= |buf| then pos + CHANNEL_HEADER + 2 * Be(buf[pos + 19..pos + 21]) else pos
  }

  /** Everything the pre-scan reads is inside the buffer. */
  ghost predicate SkipsInside(buf: seq<byte>, start: nat, numberOf16BitChannels: nat) {
    && (forall j :: 0 <= j < numberOf16BitChannels ==> SkipPosition(buf, start, j) + CHANNEL_HEADER <= |buf|)
    && SkipPosition(buf, start, numberOf16BitChannels) + 2 <= |buf|
  }

  /** Jumps over the 16-bit channels and reads the number of 8-bit channels. */
  method PreScan(buf: array<byte>, start: nat, numberOf16BitChannels: nat) returns (numberOf8BitChannels: nat)
    requires SkipsInside(buf[..], start, numberOf16BitChannels)
    ensures var pos := SkipPosition(buf[..], start, numberOf16BitChannels);
            numberOf8BitChannels == Be(buf[..][pos..pos + 2])
  {
    hide Be;
    var parseOff := start;
    var i := 0;
    while i < numberOf16BitChannels
      invariant 0 <= i <= numberOf16BitChannels
      invariant parseOff == SkipPosition(buf[..], start, i)
    {
      assert buf[..][parseOff + 19..parseOff + 21] == buf[parseOff + 19..parseOff + 21];
      var numberOfItems := ReadSwapped(buf, parseOff + 19, 2);
      parseOff := parseOff + 21;
      parseOff := parseOff + numberOfItems * 2;
      i := i + 1;
    }
    assert buf[..][parseOff..parseOff + 2] == buf[parseOff..parseOff + 2];
    numberOf8BitChannels := ReadSwapped(buf, parseOff, 2);
  }

  // ---- a pass ----

  function TaskRead(buf: seq<byte>, head: nat): Task
    requires head + NAME_LENGTH <= |buf|
  {
    TaskOf(buf[head..head + NAME_LENGTH])
  }

  /** The count of a channel header as the passes read it. */
  function ItemsRead(buf: seq<byte>, head: nat): int
    requires head + CHANNEL_HEADER <= |buf|
  {
    TwoBytes(buf[head + 19..head + 21]);
    ToShort(Be(buf[head + 19..head + 21]))
  }

  /** What a pass reads of a channel header is inside the buffer: the name, and all of it if the name is known. */
  predicate Readable(buf: seq<byte>, head: int) {
    && 0 <= head && head + NAME_LENGTH <= |buf|
    && (TaskRead(buf, head) != Idle ==> head + CHANNEL_HEADER <= |buf|)
  }

  /**
   The tables of elevation and azimuth angles are resized at every channel: a negative count is refused by an
   exception.
   */
  predicate ResizeThrows(task: Task, items: int) {
    (task == Vang || task == Azimuth) && items < 0
  }

  /** Round j of a pass reads a header, or the pass has stopped before, has thrown, or has read outside the buffer. */
  datatype Position = Reading(head: int) | Stopped | Thrown | Outside

  function CountSkip(numberOf16BitChannels: nat, j: nat): nat {
    if j == numberOf16BitChannels then 2 else 0
  }

  function BytesIn(numberOf16BitChannels: nat, j: nat): sampleWidth {
    if j < numberOf16BitChannels then 2 else 1
  }

  function PassPosition(buf: seq<byte>, numberOf16BitChannels: nat, start: nat, j: nat): Position {
    if j == 0 then Reading(start + CountSkip(numberOf16BitChannels, 0))
    else
      match PassPosition(buf, numberOf16BitChannels, start, j - 1)
      case Reading(head) =>
        if !Readable(buf, head) then Outside
        else if TaskRead(buf, head) == Idle then Stopped
        else if ResizeThrows(TaskRead(buf, head), ItemsRead(buf, head)) then Thrown
        else
          Reading(head + CHANNEL_HEADER + BytesIn(numberOf16BitChannels, j - 1) * ItemsRead(buf, head)
                  + CountSkip(numberOf16BitChannels, j))
      case other => other
  }

  /** Round j finds a known name, and no exception. */
  predicate Goes(buf: seq<byte>, numberOf16BitChannels: nat, start: nat, j: nat) {
    var p := PassPosition(buf, numberOf16BitChannels, start, j);
    && p.Reading? && Readable(buf, p.head) && TaskRead(buf, p.head) != Idle
    && !ResizeThrows(TaskRead(buf, p.head), ItemsRead(buf, p.head))
  }

  /** Round j throws. */
  predicate Throws(buf: seq<byte>, numberOf16BitChannels: nat, start: nat, j: nat) {
    var p := PassPosition(buf, numberOf16BitChannels, start, j);
    && p.Reading? && Readable(buf, p.head) && TaskRead(buf, p.head) != Idle
    && ResizeThrows(TaskRead(buf, p.head), ItemsRead(buf, p.head))
  }

  /** The number of channels a pass takes, from channel j on. */
  function Rounds(buf: seq<byte>, numberOf16BitChannels: nat, total: nat, start: nat, j: nat): (m: nat)
    requires j <= total
    ensures j <= m <= total
    decreases total - j
  {
    if j == total || !Goes(buf, numberOf16BitChannels, start, j) then j
    else Rounds(buf, numberOf16BitChannels, total, start, j + 1)
  }

  /** The channels of a kind among the first j rounds. */
  function Recognised(task: Task, buf: seq<byte>, numberOf16BitChannels: nat, start: nat, j: nat): nat {
    if j == 0 then 0
    else
      Recognised(task, buf, numberOf16BitChannels, start, j - 1)
      + if Goes(buf, numberOf16BitChannels, start, j - 1)
           && TaskRead(buf, PassPosition(buf, numberOf16BitChannels, start, j - 1).head) == task then 1 else 0
  }

  /** The count read in the last of j rounds. */
  function LastItemsRead(buf: seq<byte>, numberOf16BitChannels: nat, start: nat, j: nat): int {
    if j > 0 && Goes(buf, numberOf16BitChannels, start, j - 1) then
      ItemsRead(buf, PassPosition(buf, numberOf16BitChannels, start, j - 1).head)
    else 0
  }

  /** Everything a pass reads of headers is inside the buffer. */
  ghost predicate StaysInside(buf: seq<byte>, numberOf16BitChannels: nat, total: nat, start: nat) {
    forall j :: 0 <= j < total ==>
      var p := PassPosition(buf, numberOf16BitChannels, start, j);
      p.Reading? ==> Readable(buf, p.head)
  }

  lemma InsideAt(buf: seq<byte>, numberOf16BitChannels: nat, total: nat, start: nat, j: nat)
    requires StaysInside(buf, numberOf16BitChannels, total, start) && j < total
    requires PassPosition(buf, numberOf16BitChannels, start, j).Reading?
    ensures Readable(buf, PassPosition(buf, numberOf16BitChannels, start, j).head)
  {
  }

  lemma NoRounds(buf: seq<byte>, numberOf16BitChannels: nat, start: nat)
    ensures PassPosition(buf, numberOf16BitChannels, start, 0) == Reading(start + CountSkip(numberOf16BitChannels, 0))
    ensures LastItemsRead(buf, numberOf16BitChannels, start, 0) == 0
    ensures forall task: Task :: Recognised(task, buf, numberOf16BitChannels, start, 0) == 0
  {
  }

  /** One round of a pass. */
  lemma RoundMore(buf: seq<byte>, numberOf16BitChannels: nat, total: nat, start: nat, j: nat, head: int, task: Task,
                  items: int)
    requires j <= total && PassPosition(buf, numberOf16BitChannels, start, j) == Reading(head)
    requires j < total ==> Readable(buf, head)
    requires task == if j < total then TaskRead(buf, head) else Idle
    requires task != Idle ==> items == ItemsRead(buf, head)
    ensures task == Idle || ResizeThrows(task, items) ==> Rounds(buf, numberOf16BitChannels, total, start, j) == j
    ensures j < total ==> (Throws(buf, numberOf16BitChannels, start, j) <==> task != Idle && ResizeThrows(task, items))
    ensures task != Idle && !ResizeThrows(task, items) ==>
              && Rounds(buf, numberOf16BitChannels, total, start, j)
                 == Rounds(buf, numberOf16BitChannels, total, start, j + 1)
              && PassPosition(buf, numberOf16BitChannels, start, j + 1)
                 == Reading(head + CHANNEL_HEADER + BytesIn(numberOf16BitChannels, j) * items
                            + CountSkip(numberOf16BitChannels, j + 1))
              && LastItemsRead(buf, numberOf16BitChannels, start, j + 1) == items
              && forall kind: Task :: Recognised(kind, buf, numberOf16BitChannels, start, j + 1)
                   == Recognised(kind, buf, numberOf16BitChannels, start, j) + if kind == task then 1 else 0
  {
    hide TaskRead, ItemsRead;
  }

  /** The count of a known channel. */
  method ReadItems(buf: array<byte>, parseOff: nat) returns (numberOfItems: int)
    requires parseOff + CHANNEL_HEADER <= buf.Length
    ensures numberOfItems == ItemsRead(buf[..], parseOff)
  {
    assert buf[..][parseOff + 19..parseOff + 21] == buf[parseOff + 19..parseOff + 21];
    TwoBytes(buf[parseOff + 19..parseOff + 21]);
    var items := ReadSwapped(buf, parseOff + 19, 2);
    numberOfItems := ToShort(items);
  }

  /**
   First pass, on any bytes: count the channels of each kind up to the first unknown name, unless a table of angles is
   resized to a negative count.
   */
  method CountPass(buf: array<byte>, start: nat, numberOf16BitChannels: nat, numberOf8BitChannels: nat)
    returns (thrown: bool, dist: nat, vang: nat, azimuth: nat, rssi: nat, numberOfItems: int)
    requires StaysInside(buf[..], numberOf16BitChannels, numberOf16BitChannels + numberOf8BitChannels, start)
    ensures var bytes, wide, total := buf[..], numberOf16BitChannels, numberOf16BitChannels + numberOf8BitChannels;
            var m := Rounds(bytes, wide, total, start, 0);
            && (thrown <==> m < total && Throws(bytes, wide, start, m))
            && (!thrown ==>
                  && dist == Recognised(Dist, bytes, wide, start, m) && vang == Recognised(Vang, bytes, wide, start, m)
                  && azimuth == Recognised(Azimuth, bytes, wide, start, m)
                  && rssi == Recognised(Rssi, bytes, wide, start, m)
                  && numberOfItems == LastItemsRead(bytes, wide, start, m))
  {
    hide Be, TaskOf, PassPosition, Rounds, Recognised, LastItemsRead, StaysInside, Throws, ItemsRead;
    ghost var bytes, wide, total := buf[..], numberOf16BitChannels, numberOf16BitChannels + numberOf8BitChannels;
    ghost var rounds: nat := 0;
    NoRounds(bytes, wide, start);
    thrown, dist, vang, azimuth, rssi, numberOfItems := false, 0, 0, 0, 0, 0;
    var parseOff: int, totalChannelCnt, bCont := start, 0, true;
    while bCont
      invariant !thrown && rounds <= total && (bCont ==> totalChannelCnt == rounds)
      invariant bCont ==> PassPosition(bytes, wide, start, rounds) == Reading(parseOff + CountSkip(wide, rounds))
      invariant Rounds(bytes, wide, total, start, 0) == if bCont then Rounds(bytes, wide, total, start, rounds)
                                                        else rounds
      invariant !bCont && rounds < total ==> !Throws(bytes, wide, start, rounds)
      invariant dist == Recognised(Dist, bytes, wide, start, rounds)
                && vang == Recognised(Vang, bytes, wide, start, rounds)
      invariant azimuth == Recognised(Azimuth, bytes, wide, start, rounds)
                && rssi == Recognised(Rssi, bytes, wide, start, rounds)
      invariant numberOfItems == LastItemsRead(bytes, wide, start, rounds)
      decreases bCont, total - rounds
    {
      var processDataLenValuesInBytes := 2;
      if totalChannelCnt == numberOf16BitChannels {
        parseOff := parseOff + 2;
      }
      if totalChannelCnt >= numberOf16BitChannels {
        processDataLenValuesInBytes := 1;
      }
      bCont := false;
      if rounds < total {
        InsideAt(bytes, wide, total, start, rounds);
      }
      var task := Idle;
      if totalChannelCnt < numberOf16BitChannels + numberOf8BitChannels {
        assert bytes[parseOff..parseOff + 5] == buf[parseOff..parseOff + 5];
        task := TaskOf(buf[parseOff..parseOff + 5]);
      }
      if task == Idle {
        RoundMore(bytes, wide, total, start, rounds, parseOff, task, 0);
      } else {
        bCont := true;
        var items := ReadItems(buf, parseOff);
        RoundMore(bytes, wide, total, start, rounds, parseOff, task, items);
        if ResizeThrows(task, items) {
          thrown := true;
          return;
        }
        match task {
          case Dist => dist := dist + 1;
          case Vang => vang := vang + 1;
          case Azimuth => azimuth := azimuth + 1;
          case Rssi => rssi := rssi + 1;
        }
        numberOfItems := items;
        parseOff := parseOff + 21 + processDataLenValuesInBytes * numberOfItems;
        rounds := rounds + 1;
      }
      totalChannelCnt := totalChannelCnt + 1;
    }
  }

  // ---- telegrams ----

  /** A pass can take channel i and finds the next one behind it. */
  predicate Passable(t: Telegram, i: nat)
    requires i < |All(t)|
  {
    TaskOf(All(t)[i].name) != Idle && |All(t)[i].samples| < SHORT_RANGE
  }

  predicate AllPassable(t: Telegram, j: nat)
    requires j <= |All(t)|
  {
    forall i :: 0 <= i < j ==> Passable(t, i)
  }

  /** Round j reads the header of channel j. */
  predicate OnTrack(buf: seq<byte>, t: Telegram, j: nat)
    requires j <= |All(t)|
  {
    PassPosition(buf, |t.wide|, Start(t, 0), j) == Reading(HeadStart(t, j))
  }

  /** What stands at the header of channel j. */
  lemma ChannelRead(buf: seq<byte>, t: Telegram, j: nat)
    requires TelegramOk(t) && At(buf, 0, TelegramBytes(t)) && j < |All(t)|
    ensures HeadStart(t, j) + CHANNEL_HEADER <= |buf| && |All(t)[j].samples| < 2 * SHORT_RANGE
    ensures TaskRead(buf, HeadStart(t, j)) == TaskOf(All(t)[j].name)
    ensures ItemsRead(buf, HeadStart(t, j)) == ToShort(|All(t)[j].samples|)
    ensures HeadStart(t, j + 1)
            == HeadStart(t, j) + CHANNEL_HEADER + BytesIn(|t.wide|, j) * |All(t)[j].samples|
               + CountSkip(|t.wide|, j + 1)
  {
    hide TelegramBytes, Rest, At, Encode, TaskOf, Be;
    RestAtStart(buf, t, j);
    ChannelAt(buf, t, j);
    HeaderFields(buf, HeadStart(t, j), All(t)[j], WidthAt(t, j));
    NextStart(t, j);
  }

  lemma OnTrackNext(buf: seq<byte>, t: Telegram, j: nat)
    requires TelegramOk(t) && At(buf, 0, TelegramBytes(t)) && j < |All(t)| && OnTrack(buf, t, j)
    ensures |All(t)[j].samples| < 2 * SHORT_RANGE && (OnTrack(buf, t, j + 1) <==> Passable(t, j))
    ensures var throws := ResizeThrows(TaskOf(All(t)[j].name), ToShort(|All(t)[j].samples|));
            && (Goes(buf, |t.wide|, Start(t, 0), j) <==> TaskOf(All(t)[j].name) != Idle && !throws)
            && (Throws(buf, |t.wide|, Start(t, 0), j) <==> throws)
    ensures Readable(buf, HeadStart(t, j))
  {
    hide TelegramBytes, At, TaskOf, HeadStart, TelegramOk, ItemsRead, TaskRead;
    ChannelRead(buf, t, j);
  }

  lemma FirstOnTrack(buf: seq<byte>, t: Telegram)
    ensures OnTrack(buf, t, 0)
  {
  }

  /**
   For all telegrams: the rounds up to j read the headers of their channels if and only if all channels before j can be
   passed.
   */
  lemma {:induction false} OnTrackExactly(buf: seq<byte>, t: Telegram, j: nat)
    requires TelegramOk(t) && At(buf, 0, TelegramBytes(t)) && j <= |All(t)|
    ensures (forall i :: 0 <= i <= j ==> OnTrack(buf, t, i)) <==> AllPassable(t, j)
  {
    hide TelegramBytes, At, TelegramOk, All, Passable, OnTrack;
    if j == 0 {
      FirstOnTrack(buf, t);
    } else {
      OnTrackExactly(buf, t, j - 1);
      if AllPassable(t, j - 1) {
        assert OnTrack(buf, t, j - 1);
        OnTrackNext(buf, t, j - 1);
      }
    }
  }

  /**
   For all telegrams: a pass reads the header of every walked channel, and of the one behind them if there is one, where
   the layout has it, if and only if no walked channel that another one follows has a count of 0x8000 or more.
   */
  lemma WalkIsExact(buf: seq<byte>, t: Telegram)
    requires TelegramOk(t) && At(buf, 0, TelegramBytes(t))
    ensures (forall j :: 0 <= j < |All(t)| && j <= Walked(t, 0) ==> OnTrack(buf, t, j))
            <==> (forall i :: 0 <= i < Walked(t, 0) && i + 1 < |All(t)| ==> |All(t)[i].samples| < SHORT_RANGE)
  {
    hide TelegramBytes, At, TelegramOk, OnTrack, TaskOf, All;
    var m, total := Walked(t, 0), |All(t)|;
    if total > 0 {
      var last := if m < total then m else total - 1;
      OnTrackExactly(buf, t, last);
      assert forall i :: 0 <= i < last ==> i < m && (Passable(t, i) <==> |All(t)[i].samples| < SHORT_RANGE);
    }
  }

  lemma ShortIsPassable(t: Telegram)
    requires ShortCounts(t)
    ensures AllPassable(t, Walked(t, 0))
  {
    hide TaskOf;
  }

  /** As far as the channels can be passed, a pass takes exactly these. */
  lemma {:induction false} PassIsWalk(buf: seq<byte>, t: Telegram, j: nat)
    requires TelegramOk(t) && At(buf, 0, TelegramBytes(t)) && j <= |All(t)| && AllPassable(t, j)
    ensures forall i :: 0 <= i <= j ==> OnTrack(buf, t, i)
    ensures forall task: Task :: Recognised(task, buf, |t.wide|, Start(t, 0), j) == Count(task, All(t)[..j])
    ensures LastItemsRead(buf, |t.wide|, Start(t, 0), j) == if j == 0 then 0 else |All(t)[j - 1].samples|
    ensures Rounds(buf, |t.wide|, |All(t)|, Start(t, 0), 0) == Rounds(buf, |t.wide|, |All(t)|, Start(t, 0), j)
  {
    hide TelegramBytes, At, TelegramOk, TaskOf, HeadStart, Start, Readable, PassPosition, Recognised, LastItemsRead,
         Goes, OnTrack;
    OnTrackExactly(buf, t, j);
    if j > 0 {
      assert Passable(t, j - 1);
      PassIsWalk(buf, t, j - 1);
      OneChannelMore(buf, t, j - 1);
      forall task: Task
        ensures Recognised(task, buf, |t.wide|, Start(t, 0), j) == Count(task, All(t)[..j])
      {
        CountMore(task, All(t), j - 1);
      }
    } else {
      NoRounds(buf, |t.wide|, Start(t, 0));
      assert All(t)[..0] == [];
    }
  }

  /** A round at its channel that does not throw. */
  lemma OneChannelMore(buf: seq<byte>, t: Telegram, j: nat)
    requires TelegramOk(t) && At(buf, 0, TelegramBytes(t)) && j < |All(t)| && OnTrack(buf, t, j)
    requires TaskOf(All(t)[j].name) != Idle && |All(t)[j].samples| < 2 * SHORT_RANGE
    requires !ResizeThrows(TaskOf(All(t)[j].name), ToShort(|All(t)[j].samples|))
    ensures var wide, total, start := |t.wide|, |All(t)|, Start(t, 0);
            && Rounds(buf, wide, total, start, j) == Rounds(buf, wide, total, start, j + 1)
            && LastItemsRead(buf, wide, start, j + 1) == ToShort(|All(t)[j].samples|)
            && PassPosition(buf, wide, start, j + 1)
               == Reading(HeadStart(t, j) + CHANNEL_HEADER + BytesIn(wide, j) * ToShort(|All(t)[j].samples|)
                          + CountSkip(wide, j + 1))
            && Recognised(TaskOf(All(t)[j].name), buf, wide, start, j + 1)
               == Recognised(TaskOf(All(t)[j].name), buf, wide, start, j) + 1
            && forall task: Task :: Recognised(task, buf, wide, start, j + 1)
                 == Recognised(task, buf, wide, start, j) + if TaskOf(All(t)[j].name) == task then 1 else 0
  {
    hide TelegramBytes, At, TelegramOk, TaskOf, HeadStart, TaskRead, ItemsRead, PassPosition, Rounds, Recognised,
         LastItemsRead, All;
    ChannelRead(buf, t, j);
    OnTrackNext(buf, t, j);
    RoundMore(buf, |t.wide|, |All(t)|, Start(t, 0), j, HeadStart(t, j), TaskOf(All(t)[j].name),
              ToShort(|All(t)[j].samples|));
  }

  /** Where the counts are short, the rounds are exactly the walked channels. */
  lemma RoundsAreWalked(buf: seq<byte>, t: Telegram)
    requires TelegramOk(t) && At(buf, 0, TelegramBytes(t)) && ShortCounts(t)
    ensures Rounds(buf, |t.wide|, |All(t)|, Start(t, 0), 0) == Walked(t, 0)
    ensures Walked(t, 0) < |All(t)| ==> !Throws(buf, |t.wide|, Start(t, 0), Walked(t, 0))
  {
    hide TelegramBytes, At, TelegramOk, TaskOf, HeadStart, Start, Goes, Throws, Walked, OnTrack, PassPosition;
    var m := Walked(t, 0);
    ShortIsPassable(t);
    PassIsWalk(buf, t, m);
    if m < |All(t)| {
      OnTrackNext(buf, t, m);
    }
  }

  /**
   A pass that keeps to the layout up to a round in which it stops or throws, or to the end, stays inside the buffer.
   */
  lemma PassStaysInside(buf: seq<byte>, t: Telegram, m: nat)
    requires TelegramOk(t) && At(buf, 0, TelegramBytes(t)) && m <= |All(t)| && AllPassable(t, m)
    requires m + 1 < |All(t)| ==> !Goes(buf, |t.wide|, Start(t, 0), m)
    ensures StaysInside(buf, |t.wide|, |All(t)|, Start(t, 0))
  {
    hide TelegramBytes, At, TelegramOk, TaskOf, HeadStart, Start, Readable, TaskRead, ItemsRead, AllPassable;
    PassIsWalk(buf, t, m);
    forall j | 0 <= j < |All(t)| && PassPosition(buf, |t.wide|, Start(t, 0), j).Reading?
      ensures Readable(buf, PassPosition(buf, |t.wide|, Start(t, 0), j).head)
    {
      if j <= m {
        assert OnTrack(buf, t, j);
        OnTrackNext(buf, t, j);
      } else {
        StoppedStays(buf, |t.wide|, Start(t, 0), m, j);
      }
    }
  }

  lemma {:induction false} StoppedStays(buf: seq<byte>, numberOf16BitChannels: nat, start: nat, m: nat, j: nat)
    requires m < j && !Goes(buf, numberOf16BitChannels, start, m)
    ensures !PassPosition(buf, numberOf16BitChannels, start, j).Reading?
  {
    if m < j - 1 {
      StoppedStays(buf, numberOf16BitChannels, start, m, j - 1);
    }
  }

  /** The pre-scan keeps to the layout whatever the counts are. */
  lemma {:induction false} PreScanLands(buf: seq<byte>, t: Telegram, j: nat)
    requires TelegramOk(t) && At(buf, 0, TelegramBytes(t)) && j <= |t.wide|
    ensures SkipPosition(buf, Start(t, 0), j) == Start(t, j)
    ensures j < |t.wide| ==> Start(t, j) + CHANNEL_HEADER <= |buf|
  {
    hide TelegramBytes, Rest, At, Encode, Start, Be, TelegramOk;
    if j < |t.wide| {
      HeaderAt(buf, t, j);
    }
    if j > 0 {
      PreScanLands(buf, t, j - 1);
      HeaderAt(buf, t, j - 1);
    }
  }

  lemma HeaderAt(buf: seq<byte>, t: Telegram, j: nat)
    requires TelegramOk(t) && At(buf, 0, TelegramBytes(t)) && j < |t.wide|
    ensures Start(t, j) + CHANNEL_HEADER <= |buf| && Be(buf[Start(t, j) + 19..Start(t, j) + 21]) == |t.wide[j].samples|
    ensures Start(t, j + 1) == Start(t, j) + CHANNEL_HEADER + 2 * |t.wide[j].samples|
  {
    hide TelegramBytes, Rest, At, Encode, Be;
    RestAtStart(buf, t, j);
    ChannelAt(buf, t, j);
    HeaderFields(buf, Start(t, j), t.wide[j], 2);
    NextStart(t, j);
  }

  /** For every telegram, whatever its counts, the pre-scan reads the number of 8-bit channels. */
  lemma PreScanFinds(buf: seq<byte>, t: Telegram)
    requires TelegramOk(t) && At(buf, 0, TelegramBytes(t))
    ensures SkipsInside(buf, Start(t, 0), |t.wide|)
    ensures var pos := SkipPosition(buf, Start(t, 0), |t.wide|); Be(buf[pos..pos + 2]) == |t.narrow|
  {
    hide TelegramBytes, At, Start, Be, SkipPosition, TelegramOk;
    forall j | 0 <= j < |t.wide|
      ensures SkipPosition(buf, Start(t, 0), j) + CHANNEL_HEADER <= |buf|
    {
      PreScanLands(buf, t, j);
    }
    PreScanLands(buf, t, |t.wide|);
    NarrowCountAt(buf, t);
  }

  /**
   A pass finds the 16-bit headers and the number of 8-bit channels where the pre-scan found them, if and only if
   all names of 16-bit channels are known and none of their counts is 0x8000 or more.
   */
  lemma WalkAgreesWithPreScan(buf: seq<byte>, t: Telegram)
    requires TelegramOk(t) && At(buf, 0, TelegramBytes(t))
    ensures (forall j :: 0 <= j <= |t.wide| ==>
               PassPosition(buf, |t.wide|, Start(t, 0), j)
               == Reading(SkipPosition(buf, Start(t, 0), j) + CountSkip(|t.wide|, j)))
            <==> (forall i :: 0 <= i < |t.wide| ==> TaskOf(t.wide[i].name) != Idle && |t.wide[i].samples| < SHORT_RANGE)
  {
    hide TelegramBytes, At, Start, TaskOf, SkipPosition, PassPosition, TelegramOk;
    forall j | 0 <= j <= |t.wide|
      ensures OnTrack(buf, t, j)
              <==> PassPosition(buf, |t.wide|, Start(t, 0), j)
                   == Reading(SkipPosition(buf, Start(t, 0), j) + CountSkip(|t.wide|, j))
    {
      PreScanLands(buf, t, j);
    }
    OnTrackExactly(buf, t, |t.wide|);
    assert forall i :: 0 <= i < |t.wide| ==>
             (Passable(t, i) <==> TaskOf(t.wide[i].name) != Idle && |t.wide[i].samples| < SHORT_RANGE);
  }

  // ---- telegrams that fit the receive buffer ----

  /** Bytes of the buffer a telegram is received in. */
  const RECEIVE_BUFFER: nat := 65536

  ghost predicate Receivable(t: Telegram) {
    TelegramOk(t) && |TelegramBytes(t)| <= RECEIVE_BUFFER
  }

  /** The first walked channel from j on whose count is not a short. */
  function LongFrom(t: Telegram, j: nat): (m: nat)
    requires j <= Walked(t, 0)
    ensures j <= m <= Walked(t, 0)
    ensures forall i :: j <= i < m ==> |All(t)[i].samples| < SHORT_RANGE
    ensures m < Walked(t, 0) ==> |All(t)[m].samples| >= SHORT_RANGE
    decreases Walked(t, 0) - j
  {
    if j == Walked(t, 0) || |All(t)[j].samples| >= SHORT_RANGE then j else LongFrom(t, j + 1)
  }

  lemma LongExists(t: Telegram)
    requires !ShortCounts(t)
    ensures var j := LongFrom(t, 0);
            && j < Walked(t, 0) && AllPassable(t, j)
            && TaskOf(All(t)[j].name) != Idle && |All(t)[j].samples| >= SHORT_RANGE
  {
    hide TaskOf;
  }

  /** In a receivable telegram such a channel has 8 bits, and its end is nearly the whole buffer away from the start. */
  lemma LongIsNarrow(t: Telegram, j: nat)
    requires Receivable(t) && j < |All(t)| && |All(t)[j].samples| >= SHORT_RANGE
    ensures WidthAt(t, j) == 1
    ensures HeadStart(t, j) + CHANNEL_HEADER + |All(t)[j].samples| <= RECEIVE_BUFFER
    ensures j + 1 < |All(t)| ==> HeadStart(t, j) + 2 * CHANNEL_HEADER + |All(t)[j].samples| <= RECEIVE_BUFFER
  {
    hide TelegramBytes, TelegramOk, Start;
    TotalLength(t);
    NextStart(t, j);
    if j + 1 < |All(t)| {
      NextStart(t, j + 1);
      StartMonotone(t, j + 2, |All(t)|);
    } else {
      StartMonotone(t, j + 1, |All(t)|);
    }
  }

  /**
   For every receivable telegram with a walked count of 0x8000 or more: at the first such channel the pass throws if the
   channel is a table of angles; else it turns back to a position in front of the buffer if another channel follows;
   else it ends with a negative count and the channel counted.
   */
  lemma LongCountEndsThePass(buf: seq<byte>, t: Telegram)
    requires Receivable(t) && At(buf, 0, TelegramBytes(t)) && !ShortCounts(t)
    ensures var j, wide, total, start := LongFrom(t, 0), |t.wide|, |All(t)|, Start(t, 0);
            var task := TaskOf(All(t)[j].name);
            && (task == Vang || task == Azimuth ==>
                  StaysInside(buf, wide, total, start) && Rounds(buf, wide, total, start, 0) == j
                  && Throws(buf, wide, start, j))
            && (task == Dist || task == Rssi ==>
                  if j + 1 < total then !StaysInside(buf, wide, total, start)
                  else
                    && StaysInside(buf, wide, total, start) && Rounds(buf, wide, total, start, 0) == total
                    && LastItemsRead(buf, wide, start, total) < 0 && Recognised(task, buf, wide, start, total) > 0)
  {
    hide TelegramBytes, At, TaskOf, HeadStart, Start, Walked, Goes, Throws, StaysInside, PassPosition, Recognised,
         LastItemsRead;
    var j, wide, total, start := LongFrom(t, 0), |t.wide|, |All(t)|, Start(t, 0);
    LongExists(t);
    LongIsNarrow(t, j);
    PassIsWalk(buf, t, j);
    assert OnTrack(buf, t, j);
    OnTrackNext(buf, t, j);
    if ResizeThrows(TaskOf(All(t)[j].name), ToShort(|All(t)[j].samples|)) {
      PassStaysInside(buf, t, j);
    } else {
      OneChannelMore(buf, t, j);
      if j + 1 < total {
        InFront(buf, wide, total, start, j + 1);
      } else {
        PassStaysInside(buf, t, j);
      }
    }
  }

  lemma InFront(buf: seq<byte>, numberOf16BitChannels: nat, total: nat, start: nat, j: nat)
    requires j < total && PassPosition(buf, numberOf16BitChannels, start, j).Reading?
    requires PassPosition(buf, numberOf16BitChannels, start, j).head < 0
    ensures !StaysInside(buf, numberOf16BitChannels, total, start)
  {
    hide PassPosition;
  }

  // ---- receivable telegrams on which a pass leaves the layout ----

  const RSSI_NAME: seq<byte> := RSSI + [0x31]
  const DIST_NAME: seq<byte> := DIST + [0x31]
  const VANG_NAME: seq<byte> := VANG + [0x31]
  const OTHER_NAME: seq<byte> := [0x41, 0x42, 0x43, 0x44, 0x31]

  function Named(name: seq<byte>, items: nat): Channel {
    Channel(name, 0, 0, 0, 0, seq(items, _ => 0))
  }

  /** A header without encoders. */
  const PLAIN_HEADER: seq<byte> := seq(ENCODER_COUNT_OFFSET + 2, _ => 0)

  lemma PlainHeader()
    ensures |PLAIN_HEADER| == 62 && Be(PLAIN_HEADER[60..62]) == 0
  {
    var s := PLAIN_HEADER[60..62];
    assert s == [0, 0] && s[..1] == [0] && [0 as byte][..0] == [];
  }

  lemma TasksOfNames()
    ensures TaskOf(DIST_NAME) == Dist && TaskOf(RSSI_NAME) == Rssi && TaskOf(VANG_NAME) == Vang
            && TaskOf(OTHER_NAME) == Idle
  {
    assert VANG <= VANG_NAME && VANG_NAME[0] == 0x56;
    assert RSSI_NAME[0] == 0x52 && OTHER_NAME[0] == 0x41 && OTHER_NAME[1] == 0x42;
    assert DIST <= DIST_NAME && RSSI <= RSSI_NAME;
    assert DIST[0] == 0x44 && VANG[0] == 0x56 && ANGL[0] == 0x41 && ANGL[1] == 0x4E && RSSI[0] == 0x52;
  }

  /** One 16-bit channel of unknown name, then one 8-bit channel. */
  const UnknownName := Telegram(PLAIN_HEADER, [Named(OTHER_NAME, 1)], [Named(RSSI_NAME, 1)])

  lemma UnknownNameStops()
    ensures Receivable(UnknownName)
    ensures PassPosition(TelegramBytes(UnknownName), 1, Start(UnknownName, 0), 1) == Stopped
  {
    var t := UnknownName;
    PlainHeader();
    TasksOfNames();
    assert All(t)[0].name == OTHER_NAME && All(t)[1].name == RSSI_NAME;
    TotalLength(t);
    NextStart(t, 0);
    NextStart(t, 1);
    var buf := TelegramBytes(t);
    AtSelf(buf);
    FirstOnTrack(buf, t);
    OnTrackNext(buf, t, 0);
  }

  /** An 8-bit channel of 0x8000 samples, and one more behind it. */
  const LongRssi := Telegram(PLAIN_HEADER, [], [Named(RSSI_NAME, 0x8000), Named(RSSI_NAME, 0)])
  const LongVang := Telegram(PLAIN_HEADER, [], [Named(VANG_NAME, 0x8000), Named(RSSI_NAME, 0)])

  lemma LongThenMore(t: Telegram, name: seq<byte>)
    requires t == Telegram(PLAIN_HEADER, [], [Named(name, 0x8000), Named(RSSI_NAME, 0)])
    requires |name| == NAME_LENGTH && TaskOf(name) != Idle
    ensures Receivable(t) && !ShortCounts(t) && Start(t, 0) == 64 && HeadStart(t, 0) == 66
    ensures LongFrom(t, 0) == 0 && All(t)[0].name == name && |All(t)[0].samples| == 0x8000 && |All(t)| == 2
  {
    hide TaskOf;
    PlainHeader();
    NextStart(t, 0);
    NextStart(t, 1);
    TotalLength(t);
    assert Walked(t, 0) > 0;
  }

  /** Of an RSSI channel: the pass turns back to a position in front of the buffer. */
  lemma LongChannelTurnsBack()
    ensures Receivable(LongRssi)
    ensures PassPosition(TelegramBytes(LongRssi), 0, Start(LongRssi, 0), 1) == Reading(66 + 21 - 0x8000)
  {
    TasksOfNames();
    LongThenMore(LongRssi, RSSI_NAME);
    hide TelegramBytes, TaskOf, At, Start, TelegramOk, PassPosition, Walked;
    AtSelf(TelegramBytes(LongRssi));
    FirstOnTrack(TelegramBytes(LongRssi), LongRssi);
    OneChannelMore(TelegramBytes(LongRssi), LongRssi, 0);
  }

  /** Of elevation angles: the pass throws before it looks at another header. */
  lemma LongAnglesThrow()
    ensures var bytes := TelegramBytes(LongVang);
            && Receivable(LongVang) && StaysInside(bytes, 0, 2, Start(LongVang, 0))
            && Throws(bytes, 0, Start(LongVang, 0), 0) && PassPosition(bytes, 0, Start(LongVang, 0), 1) == Thrown
  {
    TasksOfNames();
    LongThenMore(LongVang, VANG_NAME);
    hide TelegramBytes, TaskOf, At, Start, TelegramOk, Walked;
    AtSelf(TelegramBytes(LongVang));
    LongCountEndsThePass(TelegramBytes(LongVang), LongVang);
  }

  lemma AtSelf(buf: seq<byte>)
    ensures At(buf, 0, buf)
  {
  }

  lemma TotalLength(t: Telegram)
    ensures |TelegramBytes(t)| == Start(t, |All(t)|) + |Lead(t, |All(t)|)|
  {
    RestEnds(t, 0);
  }
}
