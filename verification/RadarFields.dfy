/** Splitting a binary radar datagram into fields: slices that follow each other without gaps. */
module RadarFields {
  import opened Bytes
  import opened Fields

  datatype Slice = Slice(start: nat, len: nat)

  /** The splitter after some appends: a failed append makes all further ones fail. */
  datatype Split = Split(fields: seq<Slice>, pos: nat, ok: bool)

  /** "sSN " and "LMDradardata ". */
  const COMMAND_TYPE: seq<byte> := [0x73, 0x53, 0x4E, 0x20]
  const COMMAND: seq<byte> := [0x4C, 0x4D, 0x44, 0x72, 0x61, 0x64, 0x61, 0x72, 0x64, 0x61, 0x74, 0x61, 0x20]
  const START: nat := 17

  /** Header fields up to the number of 16-bit channels. */
  const HEADER: seq<nat> := [2, 2, 4, 1, 1, 2, 2, 4, 4, 1, 1, 1, 1, 2, 2, 2, 4, 2, 2]
  /** Identifier, scale, offset, amount of data. */
  const CHANNEL_HEAD: seq<nat> := [5, 4, 4, 2]
  const POSITION: seq<nat> := [4, 4, 4, 4, 4, 4, 1, 1]
  const NAME: seq<nat> := [1, 16]
  const COMMENT: seq<nat> := [1, 16]
  const TIMESTAMP: seq<nat> := [2, 1, 1, 1, 1, 1, 4]
  const EVENT: seq<nat> := [4, 4, 4, 4]
  const MAX_8_BIT_CHANNELS: nat := 4

  function Append(size: nat, s: Split, w: nat): Split {
    if s.ok && s.pos + w <= size then Split(s.fields + [Slice(s.pos, w)], s.pos + w, true) else s.(ok := false)
  }

  function AppendAll(size: nat, s: Split, ws: seq<nat>): Split {
    if ws == [] then s else Append(size, AppendAll(size, s, ws[..|ws| - 1]), ws[|ws| - 1])
  }

  /** Slices end within the data, also those of a failed split. */
  ghost predicate Inside(size: nat, fields: seq<Slice>) {
    forall i :: 0 <= i < |fields| ==> fields[i].start + fields[i].len <= size
  }

  ghost predicate Sane(data: seq<byte>, s: Split) {
    s.fields != [] && Inside(|data|, s.fields) && s.pos <= |data|
  }

  lemma {:induction false} AppendAllSane(data: seq<byte>, s: Split, ws: seq<nat>)
    requires Sane(data, s)
    ensures Sane(data, AppendAll(|data|, s, ws))
  {
    if ws != [] {
      AppendAllSane(data, s, ws[..|ws| - 1]);
    }
  }

  /** The last field as an unsigned 16-bit number; zero if it has another length. */
  function Last16(data: seq<byte>, s: Split): nat
    requires Sane(data, s)
  {
    var f := s.fields[|s.fields| - 1];
    if f.len == 2 then Be(data[f.start..f.start + 2]) else 0
  }

  function Widths(w: nat, n: nat): (ws: seq<nat>)
    ensures |ws| == n
  {
    seq(n, _ => w)
  }

  function Channel(data: seq<byte>, s: Split, w: nat): (r: Split)
    requires Sane(data, s)
    ensures Sane(data, r)
  {
    AppendAllSane(data, s, CHANNEL_HEAD);
    var h := AppendAll(|data|, s, CHANNEL_HEAD);
    AppendAllSane(data, h, Widths(w, Last16(data, h)));
    AppendAll(|data|, h, Widths(w, Last16(data, h)))
  }

  function Channels(data: seq<byte>, s: Split, n: nat, w: nat): (r: Split)
    requires Sane(data, s)
    ensures Sane(data, r)
  {
    if n == 0 then s else Channel(data, Channels(data, s, n - 1, w), w)
  }

  /** A flag of two bytes, and fields that follow a flag other than zero. */
  function Section(data: seq<byte>, s: Split, ws: seq<nat>): (r: Split)
    requires Sane(data, s)
    ensures Sane(data, r)
  {
    var h := Append(|data|, s, 2);
    if Last16(data, h) != 0 then
      AppendAllSane(data, h, ws);
      AppendAll(|data|, h, ws)
    else h
  }

  predicate HasCommand(data: seq<byte>) {
    |data| >= START && data[..4] == COMMAND_TYPE && data[4..START] == COMMAND
  }

  const BEGIN := Split([Slice(0, 3), Slice(4, 12)], START, true)

  function Head(data: seq<byte>): (r: Split)
    requires HasCommand(data)
    ensures Sane(data, r)
  {
    AppendAllSane(data, BEGIN, HEADER);
    AppendAll(|data|, BEGIN, HEADER)
  }

  /** Header, 16-bit channels, number of 8-bit channels. */
  function Wide(data: seq<byte>): (r: Split)
    requires HasCommand(data)
    ensures Sane(data, r)
  {
    Append(|data|, Channels(data, Head(data), Last16(data, Head(data)), 2), 2)
  }

  function Whole(data: seq<byte>): (r: Split)
    requires HasCommand(data)
    ensures Sane(data, r)
  {
    var narrow := Channels(data, Wide(data), Last16(data, Wide(data)), 1);
    Section(data, Section(data, Section(data, Section(data, Section(data, narrow,
      POSITION), NAME), COMMENT), TIMESTAMP), EVENT)
  }

  predicate Refused(data: seq<byte>) {
    !HasCommand(data) || Last16(data, Wide(data)) > MAX_8_BIT_CHANNELS
  }

  // ---- the splitter as a class ----

  class Splitter {
    const data: seq<byte>
    var fields: seq<Slice>
    var pos: nat
    var success: bool

    ghost function State(): Split
      reads this
    {
      Split(fields, pos, success)
    }

    constructor (data: seq<byte>)
      requires HasCommand(data)
      ensures this.data == data && State() == BEGIN
    {
      this.data := data;
      fields, pos, success := [Slice(0, 3), Slice(4, 12)], START, true;
    }

    /** success && appendRadarDatagramField */
    method AppendField(fieldLength: nat)
      requires pos <= |data|
      modifies this
      ensures State() == Append(|data|, old(State()), fieldLength) && pos <= |data|
    {
      if success {
        if |data| - pos >= fieldLength {
          fields := fields + [Slice(pos, fieldLength)];
          pos := pos + fieldLength;
        } else {
          success := false;
        }
      }
    }

    method AppendFields(ws: seq<nat>)
      requires Sane(data, State())
      modifies this
      ensures State() == AppendAll(|data|, old(State()), ws) && Sane(data, State())
    {
      ghost var s := State();
      for i := 0 to |ws|
        invariant State() == AppendAll(|data|, s, ws[..i]) && pos <= |data|
      {
        assert ws[..i + 1][..i] == ws[..i];
        AppendField(ws[i]);
      }
      assert ws[..|ws|] == ws;
      AppendAllSane(data, s, ws);
    }

    /** fields.back().toInteger */
    method BackToInteger() returns (value: nat)
      requires Sane(data, State())
      ensures value == Last16(data, State())
    {
      var f := fields[|fields| - 1];
      value := 0;
      if f.len == 2 {
        var next, ok;
        value, next, ok := ReadFromBuffer(data, f.start, 2);
      }
    }

    method AppendSamples(w: nat, amount: nat)
      requires Sane(data, State())
      modifies this
      ensures State() == AppendAll(|data|, old(State()), Widths(w, amount)) && Sane(data, State())
    {
      ghost var s := State();
      for i := 0 to amount
        invariant State() == AppendAll(|data|, s, Widths(w, i)) && pos <= |data|
      {
        assert Widths(w, i + 1)[..i] == Widths(w, i);
        AppendField(w);
      }
      AppendAllSane(data, s, Widths(w, amount));
    }

    method AppendChannels(number: nat, w: nat)
      requires Sane(data, State())
      modifies this
      ensures State() == Channels(data, old(State()), number, w) && Sane(data, State())
    {
      hide Append, AppendAll, Last16;
      ghost var s := State();
      for i := 0 to number
        invariant State() == Channels(data, s, i, w) && Sane(data, State())
      {
        AppendFields(CHANNEL_HEAD);
        var amount := BackToInteger();
        AppendSamples(w, amount);
      }
    }

    method AppendSection(ws: seq<nat>)
      requires Sane(data, State())
      modifies this
      ensures State() == Section(data, old(State()), ws) && Sane(data, State())
    {
      hide AppendAll, Last16;
      AppendField(2);
      var available := BackToInteger();
      if available != 0 {
        AppendFields(ws);
      }
    }
  }

  method SplitBinaryRadarDatagramToFields(data: seq<byte>) returns (fields: seq<Slice>)
    ensures fields == if Refused(data) then [] else Whole(data).fields
  {
    hide Append, AppendAll, Last16, Channels, Section;
    if |data| < START || data[..4] != COMMAND_TYPE || data[4..START] != COMMAND {
      return [];
    }
    var splitter := new Splitter(data);
    splitter.AppendFields(HEADER);
    var num16BitChannels := splitter.BackToInteger();
    splitter.AppendChannels(num16BitChannels, 2);
    splitter.AppendField(2);
    assert splitter.State() == Wide(data);
    var num8BitChannels := splitter.BackToInteger();
    if num8BitChannels > MAX_8_BIT_CHANNELS {
      return [];
    }
    splitter.AppendChannels(num8BitChannels, 1);
    splitter.AppendSection(POSITION);
    splitter.AppendSection(NAME);
    splitter.AppendSection(COMMENT);
    splitter.AppendSection(TIMESTAMP);
    splitter.AppendSection(EVENT);
    fields := splitter.fields;
  }

  // ---- the fields tile the datagram ----

  /** Each field starts where the one before it ends, from byte 17 on; the split stands at the last one's end. */
  ghost predicate Tiled(s: Split) {
    && |s.fields| >= 2 && s.fields[0] == Slice(0, 3) && s.fields[1] == Slice(4, 12)
    && (forall i :: 2 <= i < |s.fields| ==>
          s.fields[i].start == if i == 2 then START else s.fields[i - 1].start + s.fields[i - 1].len)
    && s.pos == if |s.fields| == 2 then START else s.fields[|s.fields| - 1].start + s.fields[|s.fields| - 1].len
  }

  lemma AppendTiled(size: nat, s: Split, w: nat)
    requires Tiled(s)
    ensures Tiled(Append(size, s, w))
  {
  }

  lemma {:induction false} AppendAllTiled(size: nat, s: Split, ws: seq<nat>)
    requires Tiled(s)
    ensures Tiled(AppendAll(size, s, ws))
  {
    hide Append, Tiled;
    if ws != [] {
      AppendAllTiled(size, s, ws[..|ws| - 1]);
      AppendTiled(size, AppendAll(size, s, ws[..|ws| - 1]), ws[|ws| - 1]);
    }
  }

  lemma ChannelTiled(data: seq<byte>, s: Split, w: nat)
    requires Sane(data, s) && Tiled(s)
    ensures Tiled(Channel(data, s, w))
  {
    hide AppendAll, Tiled, Last16;
    AppendAllSane(data, s, CHANNEL_HEAD);
    AppendAllTiled(|data|, s, CHANNEL_HEAD);
    var h := AppendAll(|data|, s, CHANNEL_HEAD);
    AppendAllTiled(|data|, h, Widths(w, Last16(data, h)));
  }

  lemma {:induction false} ChannelsTiled(data: seq<byte>, s: Split, n: nat, w: nat)
    requires Sane(data, s) && Tiled(s)
    ensures Tiled(Channels(data, s, n, w))
  {
    hide Channel, Tiled;
    if n > 0 {
      ChannelsTiled(data, s, n - 1, w);
      ChannelTiled(data, Channels(data, s, n - 1, w), w);
    }
  }

  lemma SectionTiled(data: seq<byte>, s: Split, ws: seq<nat>)
    requires Sane(data, s) && Tiled(s)
    ensures Tiled(Section(data, s, ws))
  {
    hide AppendAll, Tiled, Last16;
    AppendTiled(|data|, s, 2);
    AppendAllTiled(|data|, Append(|data|, s, 2), ws);
  }

  function Lengths(fields: seq<Slice>): nat {
    if fields == [] then 0 else Lengths(fields[..|fields| - 1]) + fields[|fields| - 1].len
  }

  lemma {:induction false} TiledLengths(s: Split, i: nat)
    requires Tiled(s) && 2 <= i <= |s.fields|
    ensures START + Lengths(s.fields[2..i]) == if i == |s.fields| then s.pos else s.fields[i].start
    decreases i
  {
    if i == 2 {
      assert s.fields[2..2] == [];
    } else {
      TiledLengths(s, i - 1);
      assert s.fields[2..i][..i - 3] == s.fields[2..i - 1];
      assert s.fields[2..i][i - 3] == s.fields[i - 1];
    }
  }

  lemma WideTiled(data: seq<byte>)
    requires HasCommand(data)
    ensures Tiled(Wide(data))
  {
    hide Channels, AppendAll, Last16;
    AppendAllTiled(|data|, BEGIN, HEADER);
    ChannelsTiled(data, Head(data), Last16(data, Head(data)), 2);
    AppendTiled(|data|, Channels(data, Head(data), Last16(data, Head(data)), 2), 2);
  }

  /**
   Whatever the datagram, complete or cut short: the fields of a split that is not refused tile it
   from byte 17 on, and their lengths and the bytes left over add up to all bytes behind the command.
   */
  lemma SplitTiles(data: seq<byte>)
    requires !Refused(data)
    ensures Tiled(Whole(data)) && Whole(data).pos <= |data|
    ensures START + Lengths(Whole(data).fields[2..]) + (|data| - Whole(data).pos) == |data|
  {
    hide Channels, Section, Wide, Last16, Tiled;
    WideTiled(data);
    var narrow := Channels(data, Wide(data), Last16(data, Wide(data)), 1);
    ChannelsTiled(data, Wide(data), Last16(data, Wide(data)), 1);
    SectionTiled(data, narrow, POSITION);
    var a := Section(data, narrow, POSITION);
    SectionTiled(data, a, NAME);
    var b := Section(data, a, NAME);
    SectionTiled(data, b, COMMENT);
    var c := Section(data, b, COMMENT);
    SectionTiled(data, c, TIMESTAMP);
    SectionTiled(data, Section(data, c, TIMESTAMP), EVENT);
    var s := Whole(data);
    assert |s.fields| >= 2 by { TwoFields(s); }
    TiledLengths(s, |s.fields|);
    assert s.fields[2..|s.fields|] == s.fields[2..];
  }

  lemma TwoFields(s: Split)
    requires Tiled(s)
    ensures |s.fields| >= 2
  {
  }

  // ---- rows of a channel ----

  /** Field i is an identifier: scale, offset and amount follow, and behind them as many samples of one width. */
  ghost predicate RowsFollow(data: seq<byte>, fields: seq<Slice>, i: nat) {
    && i + 3 < |fields| && fields[i + 1].len == 4 && fields[i + 2].len == 4 && fields[i + 3].len == 2
    && fields[i + 3].start + 2 <= |data|
    && var amount := Be(data[fields[i + 3].start..fields[i + 3].start + 2]);
       && i + 4 + amount <= |fields|
       && ((forall k :: i + 4 <= k < i + 4 + amount ==> fields[k].len == 2)
           || (forall k :: i + 4 <= k < i + 4 + amount ==> fields[k].len == 1))
  }

  /** Every field of five bytes is the identifier of a channel. */
  ghost predicate Grouped(data: seq<byte>, fields: seq<Slice>) {
    forall i :: 2 <= i < |fields| && fields[i].len == 5 ==> RowsFollow(data, fields, i)
  }

  function Sum(ws: seq<nat>): nat {
    if ws == [] then 0 else Sum(ws[..|ws| - 1]) + ws[|ws| - 1]
  }

  /** The slices of the given widths, one behind the other. */
  function Cut(pos: nat, ws: seq<nat>): (c: seq<Slice>)
    ensures |c| == |ws|
    ensures forall i :: 0 <= i < |ws| ==> c[i].len == ws[i]
  {
    if ws == [] then []
    else Cut(pos, ws[..|ws| - 1]) + [Slice(pos + Sum(ws[..|ws| - 1]), ws[|ws| - 1])]
  }

  /** A run of appends that does not fail cuts off exactly the given widths. */
  lemma {:induction false} AppendAllCuts(size: nat, s: Split, ws: seq<nat>)
    ensures AppendAll(size, s, ws).ok <==> s.ok && (ws == [] || s.pos + Sum(ws) <= size)
    ensures AppendAll(size, s, ws).ok ==>
              AppendAll(size, s, ws) == Split(s.fields + Cut(s.pos, ws), s.pos + Sum(ws), true)
  {
    if ws != [] {
      AppendAllCuts(size, s, ws[..|ws| - 1]);
    } else {
      assert s.fields + [] == s.fields;
    }
  }

  lemma GroupedMore(data: seq<byte>, fields: seq<Slice>, more: seq<Slice>)
    requires Grouped(data, fields)
    requires forall i :: 0 <= i < |more| ==> more[i].len != 5
    ensures Grouped(data, fields + more)
  {
    forall i | 2 <= i < |fields + more| && (fields + more)[i].len == 5
      ensures RowsFollow(data, fields + more, i)
    {
      assert RowsFollow(data, fields, i);
    }
  }

  lemma AppendAllGrouped(data: seq<byte>, s: Split, ws: seq<nat>)
    requires Grouped(data, s.fields) && AppendAll(|data|, s, ws).ok
    requires forall i :: 0 <= i < |ws| ==> ws[i] != 5
    ensures s.ok && Grouped(data, AppendAll(|data|, s, ws).fields)
  {
    hide Grouped, AppendAll, Cut;
    AppendAllCuts(|data|, s, ws);
    GroupedMore(data, s.fields, Cut(s.pos, ws));
  }

  /** A channel block behind grouped fields. */
  lemma BlockGrouped(data: seq<byte>, fields: seq<Slice>, head: seq<Slice>, rows: seq<Slice>, w: nat)
    requires Grouped(data, fields) && |fields| >= 2 && (w == 1 || w == 2)
    requires |head| == 4 && head[0].len == 5 && head[1].len == 4 && head[2].len == 4 && head[3].len == 2
    requires head[3].start + 2 <= |data| && |rows| == Be(data[head[3].start..head[3].start + 2])
    requires forall i :: 0 <= i < |rows| ==> rows[i].len == w
    ensures Grouped(data, fields + head + rows)
  {
    hide Be;
    var all := fields + head + rows;
    forall i | 2 <= i < |all| && all[i].len == 5
      ensures RowsFollow(data, all, i)
    {
      if i < |fields| {
        assert RowsFollow(data, fields, i);
      } else {
        assert i == |fields|;
      }
    }
  }

  lemma ChannelGrouped(data: seq<byte>, s: Split, w: nat)
    requires Sane(data, s) && Grouped(data, s.fields) && |s.fields| >= 2 && (w == 1 || w == 2)
    requires Channel(data, s, w).ok
    ensures s.ok && Grouped(data, Channel(data, s, w).fields) && |Channel(data, s, w).fields| >= 2
  {
    hide Grouped, AppendAll, Be;
    AppendAllSane(data, s, CHANNEL_HEAD);
    AppendAllCuts(|data|, s, CHANNEL_HEAD);
    var h := AppendAll(|data|, s, CHANNEL_HEAD);
    var n := Last16(data, h);
    AppendAllCuts(|data|, h, Widths(w, n));
    var head, rows := Cut(s.pos, CHANNEL_HEAD), Cut(h.pos, Widths(w, n));
    assert h.fields[|h.fields| - 1] == head[3];
    BlockGrouped(data, s.fields, head, rows, w);
  }

  lemma {:induction false} ChannelsGrouped(data: seq<byte>, s: Split, n: nat, w: nat)
    requires Sane(data, s) && Grouped(data, s.fields) && |s.fields| >= 2 && (w == 1 || w == 2)
    requires Channels(data, s, n, w).ok
    ensures s.ok && Grouped(data, Channels(data, s, n, w).fields) && |Channels(data, s, n, w).fields| >= 2
  {
    hide Channel, Grouped;
    if n > 0 {
      ChannelStops(data, Channels(data, s, n - 1, w), w);
      ChannelsGrouped(data, s, n - 1, w);
      ChannelGrouped(data, Channels(data, s, n - 1, w), w);
    }
  }

  lemma ChannelStops(data: seq<byte>, s: Split, w: nat)
    requires Sane(data, s) && Channel(data, s, w).ok
    ensures s.ok
  {
    hide AppendAll, Last16;
    AppendAllSane(data, s, CHANNEL_HEAD);
    AppendAllCuts(|data|, s, CHANNEL_HEAD);
    var h := AppendAll(|data|, s, CHANNEL_HEAD);
    AppendAllCuts(|data|, h, Widths(w, Last16(data, h)));
  }

  lemma SectionGrouped(data: seq<byte>, s: Split, ws: seq<nat>)
    requires Sane(data, s) && Section(data, s, ws).ok
    requires forall i :: 0 <= i < |ws| ==> ws[i] != 5
    ensures s.ok && (Grouped(data, s.fields) ==> Grouped(data, Section(data, s, ws).fields))
  {
    hide Grouped, AppendAll, Last16;
    var h := Append(|data|, s, 2);
    AppendAllCuts(|data|, h, ws);
    if Grouped(data, s.fields) {
      if s.ok && s.pos + 2 <= |data| {
        GroupedMore(data, s.fields, [Slice(s.pos, 2)]);
        if Last16(data, h) != 0 {
          AppendAllGrouped(data, h, ws);
        }
      }
    }
  }

  lemma WideGrouped(data: seq<byte>)
    requires HasCommand(data) && Wide(data).ok
    ensures Grouped(data, Wide(data).fields) && |Wide(data).fields| >= 2
  {
    hide Channels, AppendAll, Last16, Grouped, Sane;
    var h := Head(data);
    var c := Channels(data, h, Last16(data, h), 2);
    NothingGrouped(data);
    ChannelsStop(data, h, Last16(data, h), 2);
    AppendAllGrouped(data, BEGIN, HEADER);
    WideTiled(data);
    AppendAllTiled(|data|, BEGIN, HEADER);
    TwoFields(h);
    ChannelsGrouped(data, h, Last16(data, h), 2);
    GroupedMore(data, c.fields, [Slice(c.pos, 2)]);
  }

  lemma NothingGrouped(data: seq<byte>)
    ensures Grouped(data, BEGIN.fields)
  {
  }

  lemma {:induction false} ChannelsStop(data: seq<byte>, s: Split, n: nat, w: nat)
    requires Sane(data, s) && Channels(data, s, n, w).ok
    ensures s.ok
  {
    hide Channel;
    if n > 0 {
      ChannelStops(data, Channels(data, s, n - 1, w), w);
      ChannelsStop(data, s, n - 1, w);
    }
  }

  /**
   In a datagram that is complete, every field of five bytes is the identifier of a channel, its scale, offset
   and amount follow, and row 4 + i behind it is sample i: the rows the parser addresses exist.
   */
  lemma CompleteIsGrouped(data: seq<byte>)
    requires !Refused(data) && Whole(data).ok
    ensures Grouped(data, Whole(data).fields)
  {
    hide Channels, Section, Wide, Last16, Grouped, Sane;
    var n := Last16(data, Wide(data));
    var narrow := Channels(data, Wide(data), n, 1);
    var a := Section(data, narrow, POSITION);
    var b := Section(data, a, NAME);
    var c := Section(data, b, COMMENT);
    var d := Section(data, c, TIMESTAMP);
    SectionGrouped(data, d, EVENT);
    SectionGrouped(data, c, TIMESTAMP);
    SectionGrouped(data, b, COMMENT);
    SectionGrouped(data, a, NAME);
    SectionGrouped(data, narrow, POSITION);
    ChannelsStop(data, Wide(data), n, 1);
    WideGrouped(data);
    ChannelsGrouped(data, Wide(data), n, 1);
  }

  // ---- datagrams from known values ----

  datatype RadarChannel = RadarChannel(name: seq<byte>, scale: u32, offset: u32, samples: seq<nat>)

  /** An optional part: its flag, and its bytes if the flag is not zero. */
  datatype Part = Part(flag: u16, bytes: seq<byte>)

  datatype Datagram = Datagram(header: seq<byte>, wide: seq<RadarChannel>, narrow: seq<RadarChannel>,
                               position: Part, name: Part, comment: Part, timestamp: Part, event: Part)

  function EncodeHead(c: RadarChannel): seq<byte> {
    c.name + ToBe(c.scale, 4) + ToBe(c.offset, 4) + ToBe(|c.samples|, 2)
  }

  function EncodeSamples(samples: seq<nat>, w: nat): (e: seq<byte>)
    ensures |e| == w * |samples|
  {
    if samples == [] then []
    else
      assert w * |samples| == w * (|samples| - 1) + w;
      EncodeSamples(samples[..|samples| - 1], w) + ToBe(samples[|samples| - 1], w)
  }

  function EncodeChannel(c: RadarChannel, w: nat): seq<byte> {
    EncodeHead(c) + EncodeSamples(c.samples, w)
  }

  function EncodeChannels(cs: seq<RadarChannel>, w: nat): seq<byte> {
    if cs == [] then [] else EncodeChannels(cs[..|cs| - 1], w) + EncodeChannel(cs[|cs| - 1], w)
  }

  function EncodePart(p: Part): seq<byte> {
    ToBe(p.flag, 2) + p.bytes
  }

  ghost predicate ChannelsFit(cs: seq<RadarChannel>) {
    forall i :: 0 <= i < |cs| ==> |cs[i].name| == 5 && |cs[i].samples| < 0x1_0000
  }

  ghost predicate PartFits(p: Part, ws: seq<nat>) {
    |p.bytes| == if p.flag != 0 then Sum(ws) else 0
  }

  ghost predicate DatagramFits(d: Datagram) {
    && |d.header| == Sum(HEADER) - 2
    && |d.wide| < 0x1_0000 && |d.narrow| <= MAX_8_BIT_CHANNELS && ChannelsFit(d.wide) && ChannelsFit(d.narrow)
    && PartFits(d.position, POSITION) && PartFits(d.name, NAME) && PartFits(d.comment, COMMENT)
    && PartFits(d.timestamp, TIMESTAMP) && PartFits(d.event, EVENT)
  }

  function EncodeParts(d: Datagram): seq<byte> {
    EncodePart(d.position) + EncodePart(d.name) + EncodePart(d.comment) + EncodePart(d.timestamp) + EncodePart(d.event)
  }

  function EncodeDatagram(d: Datagram): seq<byte> {
    COMMAND_TYPE + COMMAND + (d.header + ToBe(|d.wide|, 2)) + EncodeChannels(d.wide, 2)
    + ToBe(|d.narrow|, 2) + EncodeChannels(d.narrow, 1) + EncodeParts(d)
  }

  /** The widths of the fields behind the command. */
  function ChannelWidths(c: RadarChannel, w: nat): seq<nat> {
    CHANNEL_HEAD + Widths(w, |c.samples|)
  }

  function ChannelsWidths(cs: seq<RadarChannel>, w: nat): seq<nat> {
    if cs == [] then [] else ChannelsWidths(cs[..|cs| - 1], w) + ChannelWidths(cs[|cs| - 1], w)
  }

  function PartWidths(p: Part, ws: seq<nat>): seq<nat> {
    [2] + if p.flag != 0 then ws else []
  }

  function DatagramWidths(d: Datagram): seq<nat> {
    HEADER + ChannelsWidths(d.wide, 2) + [2] + ChannelsWidths(d.narrow, 1)
    + PartWidths(d.position, POSITION) + PartWidths(d.name, NAME) + PartWidths(d.comment, COMMENT)
    + PartWidths(d.timestamp, TIMESTAMP) + PartWidths(d.event, EVENT)
  }

  /** The split stands behind fields of the given widths. */
  ghost predicate CutUpTo(s: Split, ws: seq<nat>) {
    s == Split(BEGIN.fields + Cut(START, ws), START + Sum(ws), true)
  }

  lemma {:induction false} SumConcat(a: seq<nat>, b: seq<nat>)
    ensures Sum(a + b) == Sum(a) + Sum(b)
  {
    if b == [] {
      assert a + b == a;
    } else {
      SumConcat(a, b[..|b| - 1]);
      assert (a + b)[..|a + b| - 1] == a + b[..|b| - 1];
    }
  }

  lemma {:induction false} CutConcat(pos: nat, a: seq<nat>, b: seq<nat>)
    ensures Cut(pos, a + b) == Cut(pos, a) + Cut(pos + Sum(a), b)
  {
    if b == [] {
      assert a + b == a;
    } else {
      CutConcat(pos, a, b[..|b| - 1]);
      SumConcat(a, b[..|b| - 1]);
      assert (a + b)[..|a + b| - 1] == a + b[..|b| - 1];
    }
  }

  /** Appending more widths that the datagram has room for. */
  lemma CutMore(size: nat, s: Split, ws: seq<nat>, more: seq<nat>)
    requires CutUpTo(s, ws) && START + Sum(ws) + Sum(more) <= size
    ensures CutUpTo(AppendAll(size, s, more), ws + more)
  {
    hide Cut, Sum;
    AppendAllCuts(size, s, more);
    CutConcat(START, ws, more);
    SumConcat(ws, more);
    assert BEGIN.fields + Cut(START, ws) + Cut(START + Sum(ws), more)
        == BEGIN.fields + (Cut(START, ws) + Cut(START + Sum(ws), more));
  }

  /** The slices start at the given positions if these are as far apart as the widths say. */
  lemma {:induction false} CutStarts(pos: nat, ws: seq<nat>, starts: seq<nat>)
    requires |starts| == |ws| + 1 && starts[0] == pos
    requires forall i, j :: 0 <= i < |ws| && j == i + 1 ==> starts[j] == starts[i] + ws[i]
    ensures pos + Sum(ws) == starts[|ws|]
    ensures forall i :: 0 <= i < |ws| ==> Cut(pos, ws)[i] == Slice(starts[i], ws[i])
  {
    if ws != [] {
      CutStarts(pos, ws[..|ws| - 1], starts[..|ws|]);
    }
  }

  /** First bytes of the nineteen header fields, and the byte behind them. */
  const HEADER_STARTS: seq<nat> :=
    [17, 19, 21, 25, 26, 27, 29, 31, 35, 39, 40, 41, 42, 43, 45, 47, 49, 53, 55, 57]

  /** The header of a datagram that is long enough: the command's two words, and nineteen fields at fixed bytes. */
  lemma HeaderRows(data: seq<byte>)
    requires HasCommand(data) && |data| >= 57
    ensures var fields := Head(data).fields;
            && |fields| == 21 && fields[0] == Slice(0, 3) && fields[1] == Slice(4, 12)
            && Head(data).ok && Head(data).pos == 57
            && forall i, j :: 0 <= i < 19 && j == i + 1 ==>
                 fields[2 + i] == Slice(HEADER_STARTS[i], HEADER_STARTS[j] - HEADER_STARTS[i])
  {
    hide Sum;
    CutStarts(START, HEADER, HEADER_STARTS);
    AppendAllCuts(|data|, BEGIN, HEADER);
  }

  lemma SumOne(ws: seq<nat>, w: nat)
    ensures Sum(ws + [w]) == Sum(ws) + w && Sum([]) == 0
  {
    Front(ws, w);
  }

  lemma HeadSizes()
    ensures Sum(CHANNEL_HEAD) == 15 && Sum([5, 4, 4]) == 13 && Sum([2]) == 2
  {
    hide Sum;
    SumOne([], 5);
    SumOne([5], 4);
    SumOne([5, 4], 4);
    SumOne([5, 4, 4], 2);
    SumOne([], 2);
    assert [] + [5] == [5] && [5] + [4] == [5, 4] && [5, 4] + [4] == [5, 4, 4] && [5, 4, 4] + [2] == CHANNEL_HEAD;
    assert [] + [2] == [2];
  }

  lemma {:induction false} SumWidths(w: nat, n: nat)
    ensures Sum(Widths(w, n)) == w * n
  {
    if n > 0 {
      SumWidths(w, n - 1);
      assert Widths(w, n)[..n - 1] == Widths(w, n - 1);
      assert w * n == w * (n - 1) + w;
    }
  }

  lemma ChannelSize(c: RadarChannel, w: nat)
    requires |c.name| == 5
    ensures |EncodeHead(c)| == 15 && |EncodeChannel(c, w)| == Sum(ChannelWidths(c, w)) == 15 + w * |c.samples|
  {
    hide Sum, ToBe;
    HeadSizes();
    SumWidths(w, |c.samples|);
    SumConcat(CHANNEL_HEAD, Widths(w, |c.samples|));
  }

  /** The last field of a cut is where the widths put it. */
  lemma LastCut(s: Split, ws: seq<nat>, w: nat)
    requires CutUpTo(s, ws + [w])
    ensures s.fields[|s.fields| - 1] == Slice(START + Sum(ws), w) && s.pos == START + Sum(ws) + w
  {
    hide Sum, Cut;
    CutOne(START, ws, w);
    SumOne(ws, w);
  }

  lemma CutOne(pos: nat, ws: seq<nat>, w: nat)
    ensures Cut(pos, ws + [w]) == Cut(pos, ws) + [Slice(pos + Sum(ws), w)]
  {
    hide Sum;
    Front(ws, w);
  }

  /** A field of two bytes at the end of a cut is read as the number standing there. */
  lemma LastIs(data: seq<byte>, s: Split, ws: seq<nat>, n: nat)
    requires Sane(data, s) && CutUpTo(s, ws + [2]) && n < 0x1_0000
    requires At(data, START + Sum(ws), ToBe(n, 2))
    ensures Last16(data, s) == n
  {
    hide Sum, Be, ToBe, CutUpTo, Sane;
    LastCut(s, ws, 2);
    LimitIsPow256(2);
    BeToBe(n, 2);
    AtSlice(data, START + Sum(ws), ToBe(n, 2));
  }

  lemma HeadAt(data: seq<byte>, pos: nat, c: RadarChannel, w: nat)
    requires |c.name| == 5 && At(data, pos, EncodeChannel(c, w))
    ensures pos + 15 + w * |c.samples| <= |data| && At(data, pos + 13, ToBe(|c.samples|, 2))
  {
    hide At, ToBe;
    ChannelSize(c, w);
    AtConcat(data, pos, EncodeHead(c), EncodeSamples(c.samples, w));
    AtConcat(data, pos, c.name + ToBe(c.scale, 4) + ToBe(c.offset, 4), ToBe(|c.samples|, 2));
    AtSlice(data, pos, EncodeChannel(c, w));
  }

  /** The splitter cuts an encoded channel at its field boundaries. */
  lemma ChannelCut(data: seq<byte>, s: Split, ws: seq<nat>, c: RadarChannel, w: nat)
    requires Sane(data, s) && CutUpTo(s, ws)
    requires |c.name| == 5 && |c.samples| < 0x1_0000 && At(data, START + Sum(ws), EncodeChannel(c, w))
    ensures CutUpTo(Channel(data, s, w), ws + ChannelWidths(c, w))
    ensures Channel(data, s, w).pos == START + Sum(ws) + |EncodeChannel(c, w)|
  {
    hide Sum, CutUpTo, AppendAll, At, Sane, ToBe, Last16;
    var size := |data|;
    HeadAt(data, START + Sum(ws), c, w);
    HeadSizes();
    CutMore(size, s, ws, CHANNEL_HEAD);
    AppendAllSane(data, s, CHANNEL_HEAD);
    var h := AppendAll(size, s, CHANNEL_HEAD);
    assert ws + CHANNEL_HEAD == ws + [5, 4, 4] + [2];
    SumConcat(ws, [5, 4, 4]);
    LastIs(data, h, ws + [5, 4, 4], |c.samples|);
    SumConcat(ws, CHANNEL_HEAD);
    SumWidths(w, |c.samples|);
    CutMore(size, h, ws + CHANNEL_HEAD, Widths(w, |c.samples|));
    assert ws + CHANNEL_HEAD + Widths(w, |c.samples|) == ws + ChannelWidths(c, w);
    ChannelSize(c, w);
    SumConcat(ws, ChannelWidths(c, w));
    CutEnd(Channel(data, s, w), ws + ChannelWidths(c, w));
  }

  lemma CutEnd(s: Split, ws: seq<nat>)
    requires CutUpTo(s, ws)
    ensures s.pos == START + Sum(ws)
  {
  }

  lemma {:induction false} ChannelsCut(data: seq<byte>, s: Split, ws: seq<nat>, cs: seq<RadarChannel>, w: nat)
    requires Sane(data, s) && CutUpTo(s, ws) && ChannelsFit(cs)
    requires At(data, START + Sum(ws), EncodeChannels(cs, w))
    ensures CutUpTo(Channels(data, s, |cs|, w), ws + ChannelsWidths(cs, w))
    ensures Channels(data, s, |cs|, w).pos == START + Sum(ws) + |EncodeChannels(cs, w)|
  {
    hide Sum, CutUpTo, Channel, At, Sane, EncodeChannel, ChannelWidths;
    CutEnd(s, ws);
    if cs == [] {
      assert ws + [] == ws;
    } else {
      var front, last := cs[..|cs| - 1], cs[|cs| - 1];
      AtConcat(data, START + Sum(ws), EncodeChannels(front, w), EncodeChannel(last, w));
      ChannelsCut(data, s, ws, front, w);
      var before := ws + ChannelsWidths(front, w);
      CutEnd(Channels(data, s, |front|, w), before);
      ChannelCut(data, Channels(data, s, |front|, w), before, last, w);
      assert before + ChannelWidths(last, w) == ws + ChannelsWidths(cs, w);
    }
  }

  lemma PartCut(data: seq<byte>, s: Split, ws: seq<nat>, p: Part, more: seq<nat>)
    requires Sane(data, s) && CutUpTo(s, ws) && PartFits(p, more)
    requires At(data, START + Sum(ws), EncodePart(p))
    ensures CutUpTo(Section(data, s, more), ws + PartWidths(p, more))
    ensures Section(data, s, more).pos == START + Sum(ws) + |EncodePart(p)|
  {
    hide Sum, CutUpTo, AppendAll, At, Sane, ToBe, Last16;
    var size := |data|;
    AtConcat(data, START + Sum(ws), ToBe(p.flag, 2), p.bytes);
    AtSlice(data, START + Sum(ws), EncodePart(p));
    HeadSizes();
    AppendOne(size, s, 2);
    CutMore(size, s, ws, [2]);
    AppendAllSane(data, s, [2]);
    var h := Append(size, s, 2);
    LastIs(data, h, ws, p.flag);
    SumConcat(ws, [2]);
    CutEnd(h, ws + [2]);
    if p.flag != 0 {
      CutMore(size, h, ws + [2], more);
      SumConcat(ws + [2], more);
      CutEnd(AppendAll(size, h, more), ws + [2] + more);
      assert ws + [2] + more == ws + PartWidths(p, more);
    } else {
      assert ws + [2] == ws + PartWidths(p, more);
    }
  }

  lemma AppendOne(size: nat, s: Split, w: nat)
    ensures AppendAll(size, s, [w]) == Append(size, s, w)
  {
    assert [w][..0] == [];
  }

  /** The datagram's pieces where the widths before them put them. */
  lemma PiecesAt(data: seq<byte>, d: Datagram)
    requires At(data, 0, EncodeDatagram(d)) && |d.header| == Sum(HEADER) - 2
    ensures HasCommand(data)
    ensures At(data, START + |d.header|, ToBe(|d.wide|, 2))
    ensures var a := START + Sum(HEADER);
            var b := a + |EncodeChannels(d.wide, 2)|;
            var c := b + 2 + |EncodeChannels(d.narrow, 1)|;
            && At(data, a, EncodeChannels(d.wide, 2)) && At(data, b, ToBe(|d.narrow|, 2))
            && At(data, b + 2, EncodeChannels(d.narrow, 1)) && At(data, c, EncodeParts(d))
  {
    hide At, ToBe, Sum, EncodeChannels, EncodeParts;
    var command, head := COMMAND_TYPE + COMMAND, d.header + ToBe(|d.wide|, 2);
    var wide, count, narrow := EncodeChannels(d.wide, 2), ToBe(|d.narrow|, 2), EncodeChannels(d.narrow, 1);
    AtConcat(data, 0, command + head + wide + count + narrow, EncodeParts(d));
    AtConcat(data, 0, command + head + wide + count, narrow);
    AtConcat(data, 0, command + head + wide, count);
    AtConcat(data, 0, command + head, wide);
    AtConcat(data, 0, command, head);
    AtConcat(data, 0, COMMAND_TYPE, COMMAND);
    AtConcat(data, START, d.header, ToBe(|d.wide|, 2));
    AtSlice(data, 0, COMMAND_TYPE);
    AtSlice(data, 4, COMMAND);
  }

  lemma PartsAt(data: seq<byte>, pos: nat, d: Datagram)
    requires At(data, pos, EncodeParts(d))
    ensures var a := pos + |EncodePart(d.position)|;
            var b := a + |EncodePart(d.name)|;
            var c := b + |EncodePart(d.comment)|;
            && At(data, pos, EncodePart(d.position)) && At(data, a, EncodePart(d.name))
            && At(data, b, EncodePart(d.comment))
            && At(data, c, EncodePart(d.timestamp)) && At(data, c + |EncodePart(d.timestamp)|, EncodePart(d.event))
  {
    hide At, EncodePart;
    var p, n, c, t, e := EncodePart(d.position), EncodePart(d.name), EncodePart(d.comment), EncodePart(d.timestamp),
      EncodePart(d.event);
    AtConcat(data, pos, p + n + c + t, e);
    AtConcat(data, pos, p + n + c, t);
    AtConcat(data, pos, p + n, c);
    AtConcat(data, pos, p, n);
  }

  const BEFORE_COUNT: seq<nat> := [2, 2, 4, 1, 1, 2, 2, 4, 4, 1, 1, 1, 1, 2, 2, 2, 4, 2]

  /** The header's last field is the number of 16-bit channels. */
  lemma HeadCut(data: seq<byte>, d: Datagram)
    requires At(data, 0, EncodeDatagram(d)) && DatagramFits(d)
    ensures HasCommand(data) && CutUpTo(Head(data), HEADER) && Last16(data, Head(data)) == |d.wide|
  {
    hide At, ToBe, Sum, Cut, EncodeDatagram, EncodeChannels, EncodeParts, AppendAll, Last16, Sane;
    PiecesAt(data, d);
    AtSlice(data, START + |d.header|, ToBe(|d.wide|, 2));
    assert CutUpTo(BEGIN, []) by { EmptyCut(); }
    CutMore(|data|, BEGIN, [], HEADER) by { EmptyCut(); }
    assert [] + HEADER == HEADER && BEFORE_COUNT + [2] == HEADER;
    SumOne(BEFORE_COUNT, 2);
    LastIs(data, Head(data), BEFORE_COUNT, |d.wide|);
  }

  lemma EmptyCut()
    ensures CutUpTo(BEGIN, []) && Sum([]) == 0
  {
    assert BEGIN.fields + [] == BEGIN.fields;
  }

  lemma WideCut(data: seq<byte>, d: Datagram)
    requires At(data, 0, EncodeDatagram(d)) && DatagramFits(d)
    ensures HasCommand(data) && CutUpTo(Wide(data), HEADER + ChannelsWidths(d.wide, 2) + [2])
    ensures Last16(data, Wide(data)) == |d.narrow|
    ensures At(data, Wide(data).pos, EncodeChannels(d.narrow, 1))
    ensures At(data, Wide(data).pos + |EncodeChannels(d.narrow, 1)|, EncodeParts(d))
    ensures Wide(data).pos == START + |d.header| + 2 + |EncodeChannels(d.wide, 2)| + 2
  {
    hide At, ToBe, Sum, CutUpTo, EncodeDatagram, EncodeChannels, EncodeParts, ChannelsWidths, Last16, Sane, AppendAll,
         Channels;
    HeadCut(data, d);
    PiecesAt(data, d);
    ChannelsCut(data, Head(data), HEADER, d.wide, 2);
    var ws, c := HEADER + ChannelsWidths(d.wide, 2), Channels(data, Head(data), |d.wide|, 2);
    CutEnd(c, ws);
    AtSlice(data, START + Sum(ws), ToBe(|d.narrow|, 2));
    HeadSizes();
    AppendOne(|data|, c, 2);
    CutMore(|data|, c, ws, [2]);
    LastIs(data, Wide(data), ws, |d.narrow|);
    SumConcat(ws, [2]);
    CutEnd(Wide(data), ws + [2]);
  }

  /**
   A datagram made of known channels and parts is cut exactly at its field boundaries, completely,
   with nothing left over, whatever its counts, samples and flags.
   */
  lemma EncodedIsCut(data: seq<byte>, d: Datagram)
    requires At(data, 0, EncodeDatagram(d)) && DatagramFits(d)
    ensures !Refused(data) && CutUpTo(Whole(data), DatagramWidths(d))
    ensures Whole(data).pos == |EncodeDatagram(d)|
  {
    hide At, ToBe, Sum, CutUpTo, EncodeChannels, EncodeParts, EncodePart, ChannelsWidths, PartWidths, PartFits;
    hide Last16, Sane, Section, Channels, Wide;
    WideCut(data, d);
    var w0 := HEADER + ChannelsWidths(d.wide, 2) + [2];
    CutEnd(Wide(data), w0);
    ChannelsCut(data, Wide(data), w0, d.narrow, 1);
    var s1, w1 := Channels(data, Wide(data), |d.narrow|, 1), w0 + ChannelsWidths(d.narrow, 1);
    CutEnd(s1, w1);
    PartsAt(data, s1.pos, d);
    PartCut(data, s1, w1, d.position, POSITION);
    var s2, w2 := Section(data, s1, POSITION), w1 + PartWidths(d.position, POSITION);
    CutEnd(s2, w2);
    PartCut(data, s2, w2, d.name, NAME);
    var s3, w3 := Section(data, s2, NAME), w2 + PartWidths(d.name, NAME);
    CutEnd(s3, w3);
    PartCut(data, s3, w3, d.comment, COMMENT);
    var s4, w4 := Section(data, s3, COMMENT), w3 + PartWidths(d.comment, COMMENT);
    CutEnd(s4, w4);
    PartCut(data, s4, w4, d.timestamp, TIMESTAMP);
    var s5, w5 := Section(data, s4, TIMESTAMP), w4 + PartWidths(d.timestamp, TIMESTAMP);
    CutEnd(s5, w5);
    PartCut(data, s5, w5, d.event, EVENT);
    EncodedLength(data, d);
  }

  lemma PlainLength(d: Datagram)
    ensures |EncodeDatagram(d)| == START + |d.header| + 2 + |EncodeChannels(d.wide, 2)| + 2
                                   + |EncodeChannels(d.narrow, 1)| + |EncodeParts(d)|
    ensures |EncodeParts(d)| == |EncodePart(d.position)| + |EncodePart(d.name)| + |EncodePart(d.comment)|
                                + |EncodePart(d.timestamp)| + |EncodePart(d.event)|
  {
    hide EncodeChannels, EncodePart, ToBe;
  }

  lemma EncodedLength(data: seq<byte>, d: Datagram)
    requires At(data, 0, EncodeDatagram(d)) && DatagramFits(d)
    ensures HasCommand(data)
    ensures |EncodeDatagram(d)| == Wide(data).pos + |EncodeChannels(d.narrow, 1)| + |EncodeParts(d)|
    ensures |EncodeParts(d)| == |EncodePart(d.position)| + |EncodePart(d.name)| + |EncodePart(d.comment)|
                                + |EncodePart(d.timestamp)| + |EncodePart(d.event)|
  {
    hide *;
    WideCut(data, d);
    PlainLength(d);
  }

  // ---- the rows of a channel ----

  /** The bytes of a slice. */
  function Content(data: seq<byte>, f: Slice): seq<byte>
    requires f.start + f.len <= |data|
  {
    data[f.start..f.start + f.len]
  }

  /** All channels, 16-bit before 8-bit. */
  function AllChannels(d: Datagram): seq<RadarChannel> {
    d.wide + d.narrow
  }

  function SampleWidth(d: Datagram, q: nat): (w: nat)
    ensures w == 1 || w == 2
  {
    if q < |d.wide| then 2 else 1
  }

  /** The widths of the fields before channel q. */
  function WidthsBefore(d: Datagram, q: nat): seq<nat>
    requires q < |AllChannels(d)|
  {
    if q < |d.wide| then HEADER + ChannelsWidths(d.wide[..q], 2)
    else HEADER + ChannelsWidths(d.wide, 2) + [2] + ChannelsWidths(d.narrow[..q - |d.wide|], 1)
  }

  /** The row of the identifier of channel q. */
  function IdentifierRow(d: Datagram, q: nat): nat
    requires q < |AllChannels(d)|
  {
    2 + |WidthsBefore(d, q)|
  }

  lemma {:induction false} CutAt(pos: nat, ws: seq<nat>, i: nat)
    requires i < |ws|
    ensures Cut(pos, ws)[i] == Slice(pos + Sum(ws[..i]), ws[i])
  {
    if i < |ws| - 1 {
      CutAt(pos, ws[..|ws| - 1], i);
      assert ws[..|ws| - 1][..i] == ws[..i];
    }
  }

  lemma {:induction false} WidthsSplit(cs: seq<RadarChannel>, w: nat, k: nat)
    requires k < |cs|
    ensures exists rest :: ChannelsWidths(cs, w) == ChannelsWidths(cs[..k], w) + ChannelWidths(cs[k], w) + rest
  {
    hide ChannelWidths;
    var front, last := ChannelsWidths(cs[..|cs| - 1], w), ChannelWidths(cs[|cs| - 1], w);
    if k == |cs| - 1 {
      assert ChannelsWidths(cs, w) == front + last + [];
    } else {
      WidthsSplit(cs[..|cs| - 1], w, k);
      assert cs[..|cs| - 1][..k] == cs[..k];
      var rest :| front == ChannelsWidths(cs[..k], w) + ChannelWidths(cs[k], w) + rest;
      assert front + last == ChannelsWidths(cs[..k], w) + ChannelWidths(cs[k], w) + (rest + last);
    }
  }

  /** The bytes of channel k stand behind those of the channels before it. */
  lemma {:induction false} ChannelKAt(data: seq<byte>, pos: nat, cs: seq<RadarChannel>, w: nat, k: nat)
    requires k < |cs| && ChannelsFit(cs) && At(data, pos, EncodeChannels(cs, w))
    ensures At(data, pos + Sum(ChannelsWidths(cs[..k], w)), EncodeChannel(cs[k], w))
  {
    hide At, EncodeChannel, Sum;
    var front, last := cs[..|cs| - 1], cs[|cs| - 1];
    AtConcat(data, pos, EncodeChannels(front, w), EncodeChannel(last, w));
    if k < |cs| - 1 {
      ChannelKAt(data, pos, front, w, k);
      assert front[..k] == cs[..k];
    } else {
      ChannelsSize(front, w);
    }
  }

  lemma {:induction false} ChannelsSize(cs: seq<RadarChannel>, w: nat)
    requires ChannelsFit(cs)
    ensures |EncodeChannels(cs, w)| == Sum(ChannelsWidths(cs, w))
  {
    hide EncodeChannel, ChannelWidths;
    if cs != [] {
      ChannelsSize(cs[..|cs| - 1], w);
      ChannelSize(cs[|cs| - 1], w);
      SumConcat(ChannelsWidths(cs[..|cs| - 1], w), ChannelWidths(cs[|cs| - 1], w));
    }
  }

  lemma {:induction false} SampleBytesAt(data: seq<byte>, pos: nat, samples: seq<nat>, w: nat, i: nat)
    requires i < |samples| && At(data, pos, EncodeSamples(samples, w))
    ensures At(data, pos + w * i, ToBe(samples[i], w))
  {
    hide At, ToBe;
    var front := samples[..|samples| - 1];
    AtConcat(data, pos, EncodeSamples(front, w), ToBe(samples[|samples| - 1], w));
    if i < |samples| - 1 {
      SampleBytesAt(data, pos, front, w, i);
    }
  }

  /** The widths of the optional parts. */
  function PartsWidths(d: Datagram): seq<nat> {
    PartWidths(d.position, POSITION) + PartWidths(d.name, NAME) + PartWidths(d.comment, COMMENT)
    + PartWidths(d.timestamp, TIMESTAMP) + PartWidths(d.event, EVENT)
  }

  lemma AllWidths(d: Datagram)
    ensures DatagramWidths(d) == HEADER + ChannelsWidths(d.wide, 2) + [2] + ChannelsWidths(d.narrow, 1) + PartsWidths(d)
  {
    hide ChannelsWidths, PartWidths;
  }

  lemma WidthsAround(d: Datagram, q: nat)
    requires q < |AllChannels(d)|
    ensures exists tail ::
            DatagramWidths(d) == WidthsBefore(d, q) + ChannelWidths(AllChannels(d)[q], SampleWidth(d, q)) + tail
  {
    hide ChannelsWidths, ChannelWidths, PartsWidths, DatagramWidths;
    AllWidths(d);
    var before, mine := WidthsBefore(d, q), ChannelWidths(AllChannels(d)[q], SampleWidth(d, q));
    if q < |d.wide| {
      WidthsSplit(d.wide, 2, q);
      var rest :| ChannelsWidths(d.wide, 2) == ChannelsWidths(d.wide[..q], 2) + mine + rest;
      var tail := rest + [2] + ChannelsWidths(d.narrow, 1) + PartsWidths(d);
      assert DatagramWidths(d) == before + mine + tail;
    } else {
      var k := q - |d.wide|;
      WidthsSplit(d.narrow, 1, k);
      var rest :| ChannelsWidths(d.narrow, 1) == ChannelsWidths(d.narrow[..k], 1) + mine + rest;
      var tail := rest + PartsWidths(d);
      assert DatagramWidths(d) == before + mine + tail;
    }
  }

  /** The slices of channel q among all fields. */
  lemma ChannelRows(data: seq<byte>, d: Datagram, q: nat, i: nat)
    requires At(data, 0, EncodeDatagram(d)) && DatagramFits(d) && q < |AllChannels(d)|
    requires i < |ChannelWidths(AllChannels(d)[q], SampleWidth(d, q))|
    ensures var row := IdentifierRow(d, q) + i;
            && HasCommand(data) && row < |Whole(data).fields|
            && Whole(data).fields[row]
               == Cut(START + Sum(WidthsBefore(d, q)), ChannelWidths(AllChannels(d)[q], SampleWidth(d, q)))[i]
  {
    hide At, ToBe, Sum, EncodeDatagram, WidthsBefore, ChannelWidths, Wide, Whole, DatagramWidths, DatagramFits, CutUpTo,
         AllChannels;
    EncodedIsCut(data, d);
    WidthsAround(d, q);
    var before, mine := WidthsBefore(d, q), ChannelWidths(AllChannels(d)[q], SampleWidth(d, q));
    var tail :| DatagramWidths(d) == before + mine + tail;
    MiddleOfCut(Whole(data), before, mine, tail, i);
  }

  lemma MiddleOfCut(s: Split, a: seq<nat>, b: seq<nat>, c: seq<nat>, i: nat)
    requires CutUpTo(s, a + b + c) && i < |b|
    ensures 2 + |a| + i < |s.fields| && s.fields[2 + |a| + i] == Cut(START + Sum(a), b)[i]
  {
    hide Cut, Sum;
    CutConcat(START, a + b, c);
    CutConcat(START, a, b);
  }

  /** The bytes of channel q stand where the widths before it put them. */
  lemma ChannelBytes(data: seq<byte>, d: Datagram, q: nat)
    requires At(data, 0, EncodeDatagram(d)) && DatagramFits(d) && q < |AllChannels(d)|
    ensures |AllChannels(d)[q].name| == 5 && |AllChannels(d)[q].samples| < 0x1_0000
    ensures At(data, START + Sum(WidthsBefore(d, q)), EncodeChannel(AllChannels(d)[q], SampleWidth(d, q)))
  {
    hide At, ToBe, Sum, EncodeDatagram, EncodeChannels, EncodeChannel, ChannelsWidths;
    PiecesAt(data, d);
    var wide := ChannelsWidths(d.wide, 2);
    if q < |d.wide| {
      SumConcat(HEADER, ChannelsWidths(d.wide[..q], 2));
      ChannelKAt(data, START + Sum(HEADER), d.wide, 2, q);
    } else {
      var k := q - |d.wide|;
      ChannelsSize(d.wide, 2);
      HeadSizes();
      SumConcat(HEADER + wide + [2], ChannelsWidths(d.narrow[..k], 1));
      SumConcat(HEADER + wide, [2]);
      SumConcat(HEADER, wide);
      ChannelKAt(data, START + Sum(HEADER + wide + [2]), d.narrow, 1, k);
    }
  }

  /**
   Row 4 + i behind the identifier of a channel, 16-bit or 8-bit, holds exactly the bytes of the channel's sample i,
   and the three rows behind the identifier its scale, its offset and the number of its samples.
   */
  lemma SampleRow(data: seq<byte>, d: Datagram, q: nat, i: nat)
    requires At(data, 0, EncodeDatagram(d)) && DatagramFits(d) && q < |AllChannels(d)|
             && i < |AllChannels(d)[q].samples|
    ensures !Refused(data) && HeadInRows(data, Whole(data).fields, IdentifierRow(d, q), AllChannels(d)[q])
    ensures RowIs(data, Whole(data).fields, IdentifierRow(d, q) + 4 + i,
                  ToBe(AllChannels(d)[q].samples[i], SampleWidth(d, q)))
  {
    hide At, ToBe, Sum, EncodeDatagram, WidthsBefore, Wide, Whole, Cut, AllChannels, HeadInRows, DatagramFits, CutUpTo;
    EncodedIsCut(data, d);
    HeadRows(data, d, q);
    ChannelBytes(data, d, q);
    var c, pos, w := AllChannels(d)[q], START + Sum(WidthsBefore(d, q)), SampleWidth(d, q);
    SampleContent(data, pos, c, w, i);
    ChannelRows(data, d, q, 4 + i);
    AtSlice(data, pos + 15 + w * i, ToBe(c.samples[i], w));
  }

  /** Field r holds these bytes. */
  predicate RowIs(data: seq<byte>, fields: seq<Slice>, r: nat, bytes: seq<byte>) {
    r < |fields| && fields[r].start + fields[r].len <= |data| && Content(data, fields[r]) == bytes
  }

  predicate HeadInRows(data: seq<byte>, fields: seq<Slice>, row: nat, c: RadarChannel) {
    && RowIs(data, fields, row, c.name) && RowIs(data, fields, row + 1, ToBe(c.scale, 4))
    && RowIs(data, fields, row + 2, ToBe(c.offset, 4)) && RowIs(data, fields, row + 3, ToBe(|c.samples|, 2))
  }

  lemma HeadRows(data: seq<byte>, d: Datagram, q: nat)
    requires At(data, 0, EncodeDatagram(d)) && DatagramFits(d) && q < |AllChannels(d)|
    ensures HasCommand(data) && HeadInRows(data, Whole(data).fields, IdentifierRow(d, q), AllChannels(d)[q])
  {
    hide At, ToBe, Sum, EncodeDatagram, WidthsBefore, Wide, Whole, Cut, AllChannels, DatagramFits, EncodeChannel;
    ChannelBytes(data, d, q);
    var c, pos, w := AllChannels(d)[q], START + Sum(WidthsBefore(d, q)), SampleWidth(d, q);
    HeadContent(data, pos, c, w);
    ChannelRows(data, d, q, 0);
    ChannelRows(data, d, q, 1);
    ChannelRows(data, d, q, 2);
    ChannelRows(data, d, q, 3);
    AtSlice(data, pos, c.name);
    AtSlice(data, pos + 5, ToBe(c.scale, 4));
    AtSlice(data, pos + 9, ToBe(c.offset, 4));
    AtSlice(data, pos + 13, ToBe(|c.samples|, 2));
  }

  lemma HeadContent(data: seq<byte>, pos: nat, c: RadarChannel, w: nat)
    requires |c.name| == 5 && At(data, pos, EncodeChannel(c, w))
    ensures var cut := Cut(pos, ChannelWidths(c, w));
            && cut[0] == Slice(pos, 5) && cut[1] == Slice(pos + 5, 4) && cut[2] == Slice(pos + 9, 4)
            && cut[3] == Slice(pos + 13, 2)
            && At(data, pos, c.name) && At(data, pos + 5, ToBe(c.scale, 4)) && At(data, pos + 9, ToBe(c.offset, 4))
            && At(data, pos + 13, ToBe(|c.samples|, 2))
  {
    hide At, ToBe, Sum, Cut;
    var ws := ChannelWidths(c, w);
    assert ws[..0] == [] && ws[..1] == [5] && ws[..2] == [5] + [4] && ws[..3] == [5, 4, 4];
    HeadSizes();
    SumOne([], 5);
    SumOne([5], 4);
    assert [] + [5] == [5];
    CutAt(pos, ws, 0);
    CutAt(pos, ws, 1);
    CutAt(pos, ws, 2);
    CutAt(pos, ws, 3);
    AtConcat(data, pos, EncodeHead(c), EncodeSamples(c.samples, w));
    AtFour(data, pos, c.name, ToBe(c.scale, 4), ToBe(c.offset, 4), ToBe(|c.samples|, 2));
  }

  lemma SampleContent(data: seq<byte>, pos: nat, c: RadarChannel, w: nat, i: nat)
    requires |c.name| == 5 && At(data, pos, EncodeChannel(c, w)) && i < |c.samples| && (w == 1 || w == 2)
    ensures Cut(pos, ChannelWidths(c, w))[4 + i] == Slice(pos + 15 + w * i, w)
    ensures At(data, pos + 15 + w * i, ToBe(c.samples[i], w))
  {
    hide At, ToBe, Sum, Cut;
    var ws := ChannelWidths(c, w);
    CutAt(pos, ws, 4 + i);
    assert ws[..4 + i] == CHANNEL_HEAD + Widths(w, i);
    SumConcat(CHANNEL_HEAD, Widths(w, i));
    SumWidths(w, i);
    HeadSizes();
    ChannelSize(c, w);
    AtConcat(data, pos, EncodeHead(c), EncodeSamples(c.samples, w));
    SampleBytesAt(data, pos + 15, c.samples, w, i);
  }
}
