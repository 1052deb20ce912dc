/** Raw targets and objects from the fields of a text datagram, and what becomes of emulated ones. */
module RadarParser {
  import opened RadarText
  import opened RadarEmulator
  import opened RadarSearch

  /** Thrown: a list is resized to a negative number of entries. */
  datatype Outcome = Filled | Skipped | Thrown

  // ---- rows of a channel ----

  /** The number of entries in the channel at a row. */
  function EntriesAt(fields: seq<string>, row: int): int
    requires 0 <= row && row + 3 < |fields|
  {
    GetHexValue(fields[row + 3])
  }

  /** The three rows behind every keyword found exist, as the parser takes for granted. */
  ghost predicate HeadsThere(fields: seq<string>, keywords: seq<string>) {
    forall j :: 0 <= j < |keywords| ==> LastRow(fields, keywords[j]) + 3 < |fields|
  }

  /** All keywords are there, with the same number of entries. */
  ghost predicate EntriesOk(fields: seq<string>, keywords: seq<string>)
    requires HeadsThere(fields, keywords)
  {
    forall j :: 0 <= j < |keywords| ==>
      && LastRow(fields, keywords[j]) >= 0 && LastRow(fields, keywords[0]) >= 0
      && EntriesAt(fields, LastRow(fields, keywords[j])) == EntriesAt(fields, LastRow(fields, keywords[0]))
  }

  method CheckEntries(fields: seq<string>, keywords: seq<string>, keyWordPos: seq<int>)
    returns (entriesNumOk: bool, entriesNum: int)
    requires keywords != [] && HeadsThere(fields, keywords) && |keyWordPos| == |keywords|
    requires forall j :: 0 <= j < |keywords| ==> keyWordPos[j] == LastRow(fields, keywords[j])
    ensures entriesNumOk <==> EntriesOk(fields, keywords)
    ensures entriesNumOk ==>
              && LastRow(fields, keywords[0]) >= 0
              && entriesNum == EntriesAt(fields, LastRow(fields, keywords[0]))
  {
    entriesNumOk, entriesNum := true, 0;
    if keyWordPos[0] == -1 {
      entriesNumOk := false;
    } else {
      entriesNum := GetHexValue(fields[keyWordPos[0] + 3]);
      for i := 0 to |keyWordPos|
        invariant entriesNumOk <==>
                    forall j :: 0 <= j < i ==>
                      LastRow(fields, keywords[j]) >= 0 && EntriesAt(fields, LastRow(fields, keywords[j])) == entriesNum
      {
        if keyWordPos[i] == -1 {
          entriesNumOk := false;
        } else {
          var entriesNumTmp := GetHexValue(fields[keyWordPos[i] + 3]);
          if entriesNumTmp != entriesNum {
            entriesNumOk := false;
          }
        }
      }
    }
  }

  /** The scaled value of entry i in the channel at a row. */
  function ValueAt(fields: seq<string>, row: int, i: int, float: nat -> real): real
    requires 0 <= row && 0 <= i && row + 4 + i < |fields|
  {
    GetHexValue(fields[row + 4 + i]) as real * float(FloatWord(fields[row + 1])) + float(FloatWord(fields[row + 2]))
  }

  method ConvertEntry(fields: seq<string>, row: int, i: int, float: nat -> real) returns (val: real)
    requires 0 <= row && 0 <= i && row + 4 + i < |fields|
    ensures val == ValueAt(fields, row, i, float)
  {
    hide GetHexValue, FloatWord;
    var scale := GetFloatWord(fields[row + 1]);
    var scaleOffset := GetFloatWord(fields[row + 2]);
    var raw := GetHexValue(fields[row + 4 + i]);
    val := raw as real * float(scale) + float(scaleOffset);
  }

  /** Half is added before the conversion to an integer. */
  function Nearest(x: real): real {
    Truncate(x + 0.5) as real
  }

  const TARGET_KEYWORDS: seq<string> := ["DIST1", "AZMT1", "VRAD1", "AMPL1", "MODE1"]
  const OBJECT_KEYWORDS: seq<string> := ["P3DX1", "P3DY1", "V3DX1", "V3DY1", "OBLE1", "OBID1"]

  /** The entries the channels announce exist. */
  ghost predicate RowsThere(fields: seq<string>, keywords: seq<string>, n: int) {
    forall j :: 0 <= j < |keywords| ==>
      && LastRow(fields, keywords[j]) >= 0
      && LastRow(fields, keywords[j]) + 4 + n <= |fields|
  }

  /** Entry i of the channel with keyword j. */
  function Entry(fields: seq<string>, keywords: seq<string>, n: int, j: nat, i: nat, float: nat -> real): real
    requires RowsThere(fields, keywords, n) && j < |keywords| && i < n
  {
    ValueAt(fields, LastRow(fields, keywords[j]), i, float)
  }

  function TargetAt(fields: seq<string>, n: int, i: nat, float: nat -> real): Target
    requires RowsThere(fields, TARGET_KEYWORDS, n) && i < n
  {
    Target(Entry(fields, TARGET_KEYWORDS, n, 0, i, float) * 0.001, Entry(fields, TARGET_KEYWORDS, n, 1, i, float),
           Entry(fields, TARGET_KEYWORDS, n, 2, i, float), Nearest(Entry(fields, TARGET_KEYWORDS, n, 3, i, float)),
           Nearest(Entry(fields, TARGET_KEYWORDS, n, 4, i, float)))
  }

  function Identifier(raw: int, scale: real): real {
    Nearest(raw as real * scale)
  }

  /** The identifier of object i: scaled without offset and rounded. */
  function IdAt(fields: seq<string>, row: int, i: int, float: nat -> real): real
    requires 0 <= row && 0 <= i && row + 4 + i < |fields|
  {
    Identifier(GetHexValue(fields[row + 4 + i]), float(FloatWord(fields[row + 1])))
  }

  method ConvertId(fields: seq<string>, row: int, i: int, float: nat -> real) returns (id: real)
    requires 0 <= row && 0 <= i && row + 4 + i < |fields|
    ensures id == IdAt(fields, row, i, float)
  {
    hide GetHexValue, FloatWord, Identifier;
    var objIdRaw := GetHexValue(fields[row + 4 + i]);
    var scale := GetFloatWord(fields[row + 1]);
    id := Identifier(objIdRaw, float(scale));
  }

  function ObjectAt(fields: seq<string>, n: int, i: nat, float: nat -> real): Object
    requires RowsThere(fields, OBJECT_KEYWORDS, n) && i < n
  {
    Object(Entry(fields, OBJECT_KEYWORDS, n, 0, i, float) * 0.001,
           Entry(fields, OBJECT_KEYWORDS, n, 1, i, float) * 0.001,
           Entry(fields, OBJECT_KEYWORDS, n, 2, i, float), Entry(fields, OBJECT_KEYWORDS, n, 3, i, float),
           Entry(fields, OBJECT_KEYWORDS, n, 4, i, float), IdAt(fields, LastRow(fields, OBJECT_KEYWORDS[5]), i, float))
  }

  /** The raw target pass of the parser. */
  method ParseRawTargets(fields: seq<string>, float: nat -> real) returns (outcome: Outcome, list: seq<Target>)
    requires HeadsThere(fields, TARGET_KEYWORDS)
    requires EntriesOk(fields, TARGET_KEYWORDS) ==>
               RowsThere(fields, TARGET_KEYWORDS, EntriesAt(fields, LastRow(fields, TARGET_KEYWORDS[0])))
    ensures outcome == Skipped <==> !EntriesOk(fields, TARGET_KEYWORDS)
    ensures outcome != Skipped ==>
              var n := EntriesAt(fields, LastRow(fields, TARGET_KEYWORDS[0]));
              && (outcome == Thrown <==> n < 0)
              && (n >= 0 ==> |list| == n && forall i :: 0 <= i < n ==> list[i] == TargetAt(fields, n, i, float))
  {
    hide LastRow, ValueAt;
    list := [];
    var pos := FindKeywords(fields, TARGET_KEYWORDS);
    var ok, entriesNum := CheckEntries(fields, TARGET_KEYWORDS, pos);
    if !ok {
      return Skipped, list;
    }
    if entriesNum < 0 {
      return Thrown, list;
    }
    for i := 0 to entriesNum
      invariant |list| == i && forall k :: 0 <= k < i ==> list[k] == TargetAt(fields, entriesNum, k, float)
    {
      assert forall j :: 0 <= j < 5 ==> pos[j] == LastRow(fields, TARGET_KEYWORDS[j]);
      var dist := ConvertEntry(fields, pos[0], i, float);
      var azimuth := ConvertEntry(fields, pos[1], i, float);
      var vrad := ConvertEntry(fields, pos[2], i, float);
      var ampl := ConvertEntry(fields, pos[3], i, float);
      var mode := ConvertEntry(fields, pos[4], i, float);
      list := list + [Target(dist * 0.001, azimuth, vrad, Nearest(ampl), Nearest(mode))];
    }
    outcome := Filled;
  }

  /** The object pass of the parser for a 3D radar. */
  method ParseObjects(fields: seq<string>, float: nat -> real) returns (outcome: Outcome, list: seq<Object>)
    requires HeadsThere(fields, OBJECT_KEYWORDS)
    requires EntriesOk(fields, OBJECT_KEYWORDS) ==>
               RowsThere(fields, OBJECT_KEYWORDS, EntriesAt(fields, LastRow(fields, OBJECT_KEYWORDS[0])))
    ensures outcome == Skipped <==> !EntriesOk(fields, OBJECT_KEYWORDS)
    ensures outcome != Skipped ==>
              var n := EntriesAt(fields, LastRow(fields, OBJECT_KEYWORDS[0]));
              && (outcome == Thrown <==> n < 0)
              && (n >= 0 ==> |list| == n && forall i :: 0 <= i < n ==> list[i] == ObjectAt(fields, n, i, float))
  {
    hide LastRow, ValueAt, IdAt;
    list := [];
    var pos := FindKeywords(fields, OBJECT_KEYWORDS);
    var ok, entriesNum := CheckEntries(fields, OBJECT_KEYWORDS, pos);
    if !ok {
      return Skipped, list;
    }
    if entriesNum < 0 {
      return Thrown, list;
    }
    for i := 0 to entriesNum
      invariant |list| == i && forall k :: 0 <= k < i ==> list[k] == ObjectAt(fields, entriesNum, k, float)
    {
      assert forall j :: 0 <= j < 6 ==> pos[j] == LastRow(fields, OBJECT_KEYWORDS[j]);
      var px := ConvertEntry(fields, pos[0], i, float);
      var py := ConvertEntry(fields, pos[1], i, float);
      var vx := ConvertEntry(fields, pos[2], i, float);
      var vy := ConvertEntry(fields, pos[3], i, float);
      var objLen := ConvertEntry(fields, pos[4], i, float);
      var objId := ConvertId(fields, pos[5], i, float);
      list := list + [Object(px * 0.001, py * 0.001, vx, vy, objLen, objId)];
    }
    outcome := Filled;
  }

  // ---- channels of an emulated datagram ----

  /** A token with a character that is not a hexadecimal digit. */
  predicate IsKeyword(kw: string) {
    IsToken(kw) && exists i :: 0 <= i < |kw| && !IsHex(kw[i])
  }

  lemma NotHex(kw: string, t: string)
    requires IsKeyword(kw) && AllHex(t)
    ensures kw != t
  {
  }

  ghost predicate ChannelOk(c: Channel) {
    IsKeyword(c.keyword) && |c.scale| == 8 && AllHex(c.scale) && |c.offset| == 8 && AllHex(c.offset)
  }

  /** Within a channel the keyword stands at its start only. */
  lemma LastInChannel(c: Channel, float: nat -> real, wide: bool, kw: string)
    requires InRange(c, float) && ChannelOk(c) && IsKeyword(kw)
    ensures LastRow(ChannelTokens(c, float, wide), kw) == if c.keyword == kw then 0 else -1
  {
    hide LastRow, HexText, Print16, Print8, Rounded;
    var rest := [c.scale, c.offset, HexText(|c.values|)] + Printed(c, float, wide);
    assert ChannelTokens(c, float, wide) == [c.keyword] + rest;
    forall t | t in rest
      ensures kw != t
    {
      NotHex(kw, t);
    }
    LastConcat([c.keyword], rest, kw);
    LastAbsent(rest, kw);
    LastOne(c.keyword, kw);
  }

  ghost predicate ListOk(cs: seq<Channel>) {
    && (forall i :: 0 <= i < |cs| ==> ChannelOk(cs[i]))
    && forall i, j :: 0 <= i < j < |cs| ==> cs[i].keyword != cs[j].keyword
  }

  /** In a list of channels the keyword of channel k stands at the start of that channel's tokens only. */
  lemma {:induction false} LastInList(cs: seq<Channel>, float: nat -> real, wide: bool, kw: string)
    requires AllInRange(cs, float) && ListOk(cs) && IsKeyword(kw)
    ensures (forall i :: 0 <= i < |cs| ==> cs[i].keyword != kw) ==> LastRow(ListTokens(cs, float, wide), kw) == -1
    ensures forall k :: 0 <= k < |cs| && cs[k].keyword == kw ==>
              LastRow(ListTokens(cs, float, wide), kw) == |ListTokens(cs[..k], float, wide)|
  {
    hide LastRow, IsKeyword, InRange, ChannelOk, ChannelTokens;
    if cs == [] {
      LastAbsent([], kw);
    } else {
      var front, last := cs[..|cs| - 1], cs[|cs| - 1];
      LastInList(front, float, wide, kw);
      LastConcat(ListTokens(front, float, wide), ChannelTokens(last, float, wide), kw);
      LastInChannel(last, float, wide, kw);
      forall k | 0 <= k < |cs| && cs[k].keyword == kw
        ensures LastRow(ListTokens(cs, float, wide), kw) == |ListTokens(cs[..k], float, wide)|
      {
        if k < |front| {
          assert front[..k] == cs[..k] && front[k] == cs[k];
        }
      }
    }
  }

  /** The tokens of channel k stand behind those of the channels before it. */
  lemma {:induction false} ListAt(cs: seq<Channel>, float: nat -> real, wide: bool, k: nat, i: nat)
    requires AllInRange(cs, float) && k < |cs| && i < 4 + |cs[k].values|
    ensures |ListTokens(cs[..k], float, wide)| + i < |ListTokens(cs, float, wide)|
    ensures ListTokens(cs, float, wide)[|ListTokens(cs[..k], float, wide)| + i] == ChannelTokens(cs[k], float, wide)[i]
  {
    hide ChannelTokens, InRange;
    var front := cs[..|cs| - 1];
    if k < |front| {
      ListAt(front, float, wide, k, i);
      assert front[..k] == cs[..k] && front[k] == cs[k];
    }
  }

  ghost predicate DatagramOk(wide: seq<Channel>, narrow: seq<Channel>, float: nat -> real) {
    && AllInRange(wide, float) && AllInRange(narrow, float) && ListOk(wide) && ListOk(narrow)
    && forall i, j :: 0 <= i < |wide| && 0 <= j < |narrow| ==> wide[i].keyword != narrow[j].keyword
  }

  /** The fields the parser sees. */
  function Fields(wide: seq<Channel>, narrow: seq<Channel>, float: nat -> real): seq<string>
    requires AllInRange(wide, float) && AllInRange(narrow, float)
  {
    DatagramTokens(wide, narrow, float) + [LAST]
  }

  lemma ChannelTokensAreTokens(c: Channel, float: nat -> real, wide: bool)
    requires InRange(c, float) && ChannelOk(c)
    ensures forall t :: t in ChannelTokens(c, float, wide) ==> IsToken(t)
  {
    hide HexText, Print16, Print8, Rounded;
    forall t | t in ChannelTokens(c, float, wide)
      ensures IsToken(t)
    {
      if t != c.keyword {
        assert AllHex(t) && t != "";
        HexIsToken(t);
      }
    }
  }

  lemma HexIsToken(t: string)
    requires AllHex(t) && t != ""
    ensures IsToken(t)
  {
    assert !IsHex(' ');
  }

  lemma {:induction false} ListTokensAreTokens(cs: seq<Channel>, float: nat -> real, wide: bool)
    requires AllInRange(cs, float) && ListOk(cs)
    ensures forall t :: t in ListTokens(cs, float, wide) ==> IsToken(t)
  {
    hide InRange, ChannelTokens, IsToken;
    if cs != [] {
      ListTokensAreTokens(cs[..|cs| - 1], float, wide);
      ChannelTokensAreTokens(cs[|cs| - 1], float, wide);
    }
  }

  /** strtok finds the fields of an emulated text. */
  lemma EmulatedFields(wide: seq<Channel>, narrow: seq<Channel>, float: nat -> real)
    requires DatagramOk(wide, narrow, float)
    ensures Tokens(Spaced(DatagramTokens(wide, narrow, float)) + LAST) == Fields(wide, narrow, float)
  {
    hide ListTokens, HexText, Spaced, InRange, ChannelOk, Tokens;
    ListTokensAreTokens(wide, float, true);
    ListTokensAreTokens(narrow, float, false);
    HexIsToken(HexText(|wide|));
    HexIsToken(HexText(|narrow|));
    FixedTokens();
    var ts := DatagramTokens(wide, narrow, float);
    assert forall i :: 0 <= i < |ts| ==> IsToken(ts[i]);
    SpacedTokens(ts, LAST);
    LastToken();
  }

  lemma FixedTokens()
    ensures forall i :: 0 <= i < |HEADER| ==> IsToken(HEADER[i])
    ensures forall i :: 0 <= i < |TRAILER| ==> IsToken(TRAILER[i])
  {
  }

  lemma LastToken()
    ensures Tokens(LAST) == [LAST]
  {
    assert LAST[1..] == "\U{0003}" && LAST[1..][1..] == "";
    assert WordEnd(LAST[1..][1..]) == 0 && WordEnd(LAST[1..]) == 1 && WordEnd(LAST) == 2;
    assert LAST[..2] == LAST && LAST[2..] == "";
  }

  // ---- where the channels of an emulated datagram stand ----

  function WideRow(wide: seq<Channel>, float: nat -> real, k: nat): nat
    requires AllInRange(wide, float) && k <= |wide|
  {
    |HEADER| + 1 + |ListTokens(wide[..k], float, true)|
  }

  function NarrowRow(wide: seq<Channel>, narrow: seq<Channel>, float: nat -> real, k: nat): nat
    requires AllInRange(wide, float) && AllInRange(narrow, float) && k <= |narrow|
  {
    |HEADER| + 1 + |ListTokens(wide, float, true)| + 1 + |ListTokens(narrow[..k], float, false)|
  }

  /** The tokens of a channel from a row on. */
  ghost predicate ChannelAt(fields: seq<string>, row: nat, c: Channel, float: nat -> real, wide: bool) {
    && InRange(c, float) && row + 4 + |c.values| <= |fields|
    && forall i :: 0 <= i < 4 + |c.values| ==> fields[row + i] == ChannelTokens(c, float, wide)[i]
  }

  lemma Surrounded(a: seq<string>, b: seq<string>, c: seq<string>, kw: string)
    requires LastRow(b, kw) >= 0 && kw !in c
    ensures LastRow(a + b + c, kw) == |a| + LastRow(b, kw)
  {
    hide LastRow;
    LastConcat(a + b, c, kw);
    LastConcat(a, b, kw);
    LastAbsent(c, kw);
  }

  lemma FixedHex(kw: string)
    requires IsKeyword(kw) && kw != LAST
    ensures kw !in TRAILER + [LAST]
  {
    forall i | 0 <= i < |TRAILER|
      ensures kw != TRAILER[i]
    {
      NotHex(kw, TRAILER[i]);
    }
  }

  lemma {:induction false} KeywordAbsent(cs: seq<Channel>, float: nat -> real, wide: bool, kw: string)
    requires AllInRange(cs, float) && ListOk(cs) && IsKeyword(kw)
    requires forall i :: 0 <= i < |cs| ==> cs[i].keyword != kw
    ensures kw !in ListTokens(cs, float, wide)
  {
    hide IsKeyword, InRange, ChannelTokens;
    if cs != [] {
      KeywordAbsent(cs[..|cs| - 1], float, wide, kw);
      AbsentInChannel(cs[|cs| - 1], float, wide, kw);
    }
  }

  lemma AbsentInChannel(c: Channel, float: nat -> real, wide: bool, kw: string)
    requires InRange(c, float) && ChannelOk(c) && IsKeyword(kw) && c.keyword != kw
    ensures kw !in ChannelTokens(c, float, wide)
  {
    hide LastRow, HexText, Print16, Print8, Rounded;
    forall t | t in ChannelTokens(c, float, wide)
      ensures kw != t
    {
      if t != c.keyword {
        NotHex(kw, t);
      }
    }
  }

  /** The parser finds 16-bit channel k by its keyword, at the channel's own row. */
  lemma WideFound(wide: seq<Channel>, narrow: seq<Channel>, float: nat -> real, k: nat)
    requires DatagramOk(wide, narrow, float) && k < |wide| && wide[k].keyword != LAST
    ensures LastRow(Fields(wide, narrow, float), wide[k].keyword) == WideRow(wide, float, k)
    ensures ChannelAt(Fields(wide, narrow, float), WideRow(wide, float, k), wide[k], float, true)
  {
    hide LastRow, IsKeyword, InRange, ChannelTokens, ListTokens, HexText;
    var kw := wide[k].keyword;
    var a, b := HEADER + [HexText(|wide|)], ListTokens(wide, float, true);
    var c := [HexText(|narrow|)] + ListTokens(narrow, float, false) + (TRAILER + [LAST]);
    assert Fields(wide, narrow, float) == a + b + c;
    assert ChannelOk(wide[k]);
    LastInList(wide, float, true, kw);
    KeywordAbsent(narrow, float, false, kw);
    NotHex(kw, HexText(|narrow|));
    FixedHex(kw);
    Surrounded(a, b, c, kw);
    forall i | 0 <= i < 4 + |wide[k].values|
      ensures WideRow(wide, float, k) + i < |a + b|
      ensures (a + b)[WideRow(wide, float, k) + i] == ChannelTokens(wide[k], float, true)[i]
    {
      ListAt(wide, float, true, k, i);
    }
    ListAt(wide, float, true, k, 3 + |wide[k].values|);
  }

  /** The parser finds 8-bit channel k by its keyword, at the channel's own row. */
  lemma NarrowFound(wide: seq<Channel>, narrow: seq<Channel>, float: nat -> real, k: nat)
    requires DatagramOk(wide, narrow, float) && k < |narrow| && narrow[k].keyword != LAST
    ensures LastRow(Fields(wide, narrow, float), narrow[k].keyword) == NarrowRow(wide, narrow, float, k)
    ensures ChannelAt(Fields(wide, narrow, float), NarrowRow(wide, narrow, float, k), narrow[k], float, false)
  {
    hide LastRow, IsKeyword, InRange, ChannelTokens, ListTokens, HexText;
    var kw := narrow[k].keyword;
    var a := HEADER + [HexText(|wide|)] + ListTokens(wide, float, true) + [HexText(|narrow|)];
    var b, c := ListTokens(narrow, float, false), TRAILER + [LAST];
    assert Fields(wide, narrow, float) == a + b + c;
    assert ChannelOk(narrow[k]);
    LastInList(narrow, float, false, kw);
    FixedHex(kw);
    Surrounded(a, b, c, kw);
    forall i | 0 <= i < 4 + |narrow[k].values|
      ensures NarrowRow(wide, narrow, float, k) + i < |a + b|
      ensures (a + b)[NarrowRow(wide, narrow, float, k) + i] == ChannelTokens(narrow[k], float, false)[i]
    {
      ListAt(narrow, float, false, k, i);
    }
    ListAt(narrow, float, false, k, 3 + |narrow[k].values|);
  }

  // ---- what is read back ----

  /**
   A 16-bit channel of any scale and offset is read back with its number of entries, and each entry, counted from the
   offset, within half a step.
   */
  lemma ChannelReadBack(fields: seq<string>, row: nat, c: Channel, float: nat -> real, i: nat)
    requires ChannelAt(fields, row, c, float, true) && |c.scale| == 8 && AllHex(c.scale)
    requires i < |c.values| < 0x8000
    ensures EntriesAt(fields, row) == |c.values|
    ensures ValueAt(fields, row, i, float) == Steps(c, float, i) as real * Factor(c, float) + Shift(c, float)
    ensures var d := ValueAt(fields, row, i, float) - (c.values[i] + Shift(c, float));
            -0.5 * Factor(c, float) <= d <= 0.5 * Factor(c, float)
  {
    hide GetHexValue, HexText, Print16, FloatWord, Rounded, HexNumber;
    ChannelHead(fields, row, c, float, true);
    assert fields[row + 4 + i] == ChannelTokens(c, float, true)[4 + i] == Print16(Steps(c, float, i));
    Print16Read(Steps(c, float, i));
    RoundedWithinHalf(c.values[i], Factor(c, float));
  }

  lemma ChannelHead(fields: seq<string>, row: nat, c: Channel, float: nat -> real, wide: bool)
    requires ChannelAt(fields, row, c, float, wide) && |c.values| < 0x8000
    ensures EntriesAt(fields, row) == |c.values|
    ensures fields[row + 1] == c.scale && fields[row + 2] == c.offset
  {
    hide GetHexValue, HexText, Print16, Print8, FloatWord, Rounded, HexNumber, InRange;
    var ts := ChannelTokens(c, float, wide);
    assert fields[row + 1] == ts[1] && fields[row + 2] == ts[2] && fields[row + 3] == ts[3];
    CountRead(|c.values|);
  }

  /** An entry of an 8-bit channel is read back exactly if its rounded value is one of 0 .. 255. */
  lemma NarrowReadBack(fields: seq<string>, row: nat, c: Channel, float: nat -> real, i: nat)
    requires ChannelAt(fields, row, c, float, false) && i < |c.values| < 0x8000
    ensures EntriesAt(fields, row) == |c.values|
    ensures GetHexValue(fields[row + 4 + i]) == Steps(c, float, i) <==> 0 <= Steps(c, float, i) < 256
    ensures GetHexValue(fields[row + 4 + i]) >= 0
    ensures ValueAt(fields, row, i, float)
            == GetHexValue(fields[row + 4 + i]) as real * Factor(c, float) + Shift(c, float)
  {
    hide GetHexValue, HexText, Print8, FloatWord, Rounded, HexNumber;
    ChannelHead(fields, row, c, float, false);
    assert fields[row + 4 + i] == ChannelTokens(c, float, false)[4 + i] == Print8(Steps(c, float, i));
    Print8Read(Steps(c, float, i));
  }

  // ---- the emulator's own lists ----

  /** Values of one quantity over a list. */
  function Quantities<T>(list: seq<T>, quantity: T -> real): (v: seq<real>)
    ensures |v| == |list|
  {
    seq(|list|, i requires 0 <= i < |list| => quantity(list[i]))
  }

  /** Degrees per radian, and the offset texts of the eleven channels; the emulator's own are all zero. */
  datatype Units = Units(degrees: real, offsets: seq<string>)

  const ZERO: string := "00000000"

  predicate OffsetsOk(units: Units) {
    |units.offsets| == 11 && forall k :: 0 <= k < 11 ==> |units.offsets[k]| == 8 && AllHex(units.offsets[k])
  }

  /** An offset text of zeros stands for the float of the word zero. */
  lemma ZeroOffset()
    ensures |ZERO| == 8 && AllHex(ZERO) && FloatWord(ZERO) == 0
  {
    hide HexNumber, FloatWord;
    FloatWordIs(ZERO);
    ZeroNumber(ZERO);
  }

  lemma {:induction false} ZeroNumber(s: string)
    requires forall i :: 0 <= i < |s| ==> s[i] == '0'
    ensures AllHex(s) && HexNumber(s) == 0
  {
    if s != "" {
      ZeroNumber(s[..|s| - 1]);
    }
  }

  /** The 16-bit channels: four of raw targets, five of objects. Distances go out in millimetres, angles in degrees. */
  function WideChannels(ts: seq<Target>, os: seq<Object>, units: Units): (cs: seq<Channel>)
    requires |units.offsets| == 11
    ensures |cs| == 9
  {
    [Channel("DIST1", "42200000", units.offsets[0], Quantities(ts, (t: Target) => 1000.0 * t.dist)),
     Channel("AZMT1", "3E23D70A", units.offsets[1], Quantities(ts, (t: Target) => units.degrees * t.azimuth)),
     Channel("VRAD1", "3D23D70A", units.offsets[2], Quantities(ts, (t: Target) => t.vrad)),
     Channel("AMPL1", "3F800000", units.offsets[3], Quantities(ts, (t: Target) => t.ampl)),
     Channel("P3DX1", "42800000", units.offsets[4], Quantities(os, (o: Object) => o.p3dx)),
     Channel("P3DY1", "42800000", units.offsets[5], Quantities(os, (o: Object) => o.p3dy)),
     Channel("V3DX1", "3DCCCCCD", units.offsets[6], Quantities(os, (o: Object) => o.v3dx)),
     Channel("V3DY1", "3DCCCCCD", units.offsets[7], Quantities(os, (o: Object) => o.v3dy)),
     Channel("OBLE1", "3F400000", units.offsets[8], Quantities(os, (o: Object) => o.objLength))]
  }

  function NarrowChannels(ts: seq<Target>, os: seq<Object>, units: Units): (cs: seq<Channel>)
    requires |units.offsets| == 11
    ensures |cs| == 2
  {
    [Channel("MODE1", "3F800000", units.offsets[9], Quantities(ts, (t: Target) => t.mode)),
     Channel("OBID1", "3F800000", units.offsets[10], Quantities(os, (o: Object) => o.objId))]
  }

  /** The word of the float 1.0. */
  const ONE: nat := 0x3F80_0000

  ghost predicate Emulable(ts: seq<Target>, os: seq<Object>, units: Units, float: nat -> real) {
    && |ts| < 0x8000 && |os| < 0x8000 && float(ONE) == 1.0 && OffsetsOk(units)
    && AllInRange(WideChannels(ts, os, units), float) && AllInRange(NarrowChannels(ts, os, units), float)
  }

  lemma ChannelFits(c: Channel, i: nat)
    requires i < |c.keyword| == 5 && ' ' !in c.keyword && !IsHex(c.keyword[i])
    requires |c.scale| == 8 && AllHex(c.scale) && |c.offset| == 8 && AllHex(c.offset)
    ensures ChannelOk(c) && c.keyword != LAST
  {
  }

  lemma TargetChannelsFit(units: Units, dist: seq<real>, azimuth: seq<real>, vrad: seq<real>, ampl: seq<real>)
    requires OffsetsOk(units)
    ensures ChannelOk(Channel("DIST1", "42200000", units.offsets[0], dist)) && "DIST1" != LAST
    ensures ChannelOk(Channel("AZMT1", "3E23D70A", units.offsets[1], azimuth)) && "AZMT1" != LAST
    ensures ChannelOk(Channel("VRAD1", "3D23D70A", units.offsets[2], vrad)) && "VRAD1" != LAST
    ensures ChannelOk(Channel("AMPL1", "3F800000", units.offsets[3], ampl)) && "AMPL1" != LAST
  {
    hide ChannelOk;
    ChannelFits(Channel("DIST1", "42200000", units.offsets[0], dist), 1);
    ChannelFits(Channel("AZMT1", "3E23D70A", units.offsets[1], azimuth), 1);
    ChannelFits(Channel("VRAD1", "3D23D70A", units.offsets[2], vrad), 0);
    ChannelFits(Channel("AMPL1", "3F800000", units.offsets[3], ampl), 1);
  }

  lemma ObjectChannelsFit(units: Units, px: seq<real>, py: seq<real>, vx: seq<real>, vy: seq<real>, len: seq<real>)
    requires OffsetsOk(units)
    ensures ChannelOk(Channel("P3DX1", "42800000", units.offsets[4], px)) && "P3DX1" != LAST
    ensures ChannelOk(Channel("P3DY1", "42800000", units.offsets[5], py)) && "P3DY1" != LAST
    ensures ChannelOk(Channel("V3DX1", "3DCCCCCD", units.offsets[6], vx)) && "V3DX1" != LAST
    ensures ChannelOk(Channel("V3DY1", "3DCCCCCD", units.offsets[7], vy)) && "V3DY1" != LAST
    ensures ChannelOk(Channel("OBLE1", "3F400000", units.offsets[8], len)) && "OBLE1" != LAST
  {
    hide ChannelOk;
    ChannelFits(Channel("P3DX1", "42800000", units.offsets[4], px), 0);
    ChannelFits(Channel("P3DY1", "42800000", units.offsets[5], py), 0);
    ChannelFits(Channel("V3DX1", "3DCCCCCD", units.offsets[6], vx), 0);
    ChannelFits(Channel("V3DY1", "3DCCCCCD", units.offsets[7], vy), 0);
    ChannelFits(Channel("OBLE1", "3F400000", units.offsets[8], len), 0);
  }

  lemma WideFits(ts: seq<Target>, os: seq<Object>, units: Units)
    requires OffsetsOk(units)
    ensures forall k :: 0 <= k < 9 ==>
              ChannelOk(WideChannels(ts, os, units)[k]) && WideChannels(ts, os, units)[k].keyword != LAST
  {
    hide Quantities, ChannelOk;
    var cs := WideChannels(ts, os, units);
    TargetChannelsFit(units, cs[0].values, cs[1].values, cs[2].values, cs[3].values);
    ObjectChannelsFit(units, cs[4].values, cs[5].values, cs[6].values, cs[7].values, cs[8].values);
  }

  lemma NarrowFits(ts: seq<Target>, os: seq<Object>, units: Units)
    requires OffsetsOk(units)
    ensures forall k :: 0 <= k < 2 ==>
              && ChannelOk(NarrowChannels(ts, os, units)[k])
              && NarrowChannels(ts, os, units)[k].keyword != LAST
  {
    hide Quantities, ChannelOk;
    ChannelFits(NarrowChannels(ts, os, units)[0], 0);
    ChannelFits(NarrowChannels(ts, os, units)[1], 0);
  }

  /** The keywords of the emulated datagram are different. */
  function Keywords(): (ks: seq<string>)
    ensures |ks| == 11
  {
    ["DIST1", "AZMT1", "VRAD1", "AMPL1", "P3DX1", "P3DY1", "V3DX1", "V3DY1", "OBLE1", "MODE1", "OBID1"]
  }

  lemma KeywordsDiffer()
    ensures forall i, j :: 0 <= i < j < 11 ==> Keywords()[i] != Keywords()[j]
  {
    forall i, j | 0 <= i < j < 11
      ensures Keywords()[i] != Keywords()[j]
    {
      var a, b := Keywords()[i], Keywords()[j];
      assert a[0] != b[0] || a[1] != b[1] || a[2] != b[2] || a[3] != b[3];
    }
  }

  lemma KeywordsAre(ts: seq<Target>, os: seq<Object>, units: Units)
    requires |units.offsets| == 11
    ensures forall k :: 0 <= k < 9 ==> WideChannels(ts, os, units)[k].keyword == Keywords()[k]
    ensures forall k :: 0 <= k < 2 ==> NarrowChannels(ts, os, units)[k].keyword == Keywords()[9 + k]
  {
    hide Quantities;
  }

  lemma EmulatedOk(ts: seq<Target>, os: seq<Object>, units: Units, float: nat -> real)
    requires Emulable(ts, os, units, float)
    ensures DatagramOk(WideChannels(ts, os, units), NarrowChannels(ts, os, units), float)
  {
    hide Quantities, InRange, ChannelOk, WideChannels, NarrowChannels, Keywords;
    WideFits(ts, os, units);
    NarrowFits(ts, os, units);
    KeywordsAre(ts, os, units);
    KeywordsDiffer();
  }

  /** The number the offset text of channel k stands for. */
  function Offset(units: Units, k: nat, float: nat -> real): real
    requires k < |units.offsets|
  {
    float(FloatWord(units.offsets[k]))
  }

  predicate Near(a: real, b: real, bound: real) {
    -bound <= a - b <= bound
  }

  /** The fields of the emulated text, as strtok finds them. */
  ghost function EmulatedText(ts: seq<Target>, os: seq<Object>, units: Units, float: nat -> real): seq<string>
    requires Emulable(ts, os, units, float)
  {
    Tokens(Spaced(DatagramTokens(WideChannels(ts, os, units), NarrowChannels(ts, os, units), float)) + LAST)
  }

  /** Channel k of the eleven is found by its keyword, complete. */
  lemma EmulatedChannel(ts: seq<Target>, os: seq<Object>, units: Units, float: nat -> real, k: nat)
    requires Emulable(ts, os, units, float) && k < 11
    ensures var row := LastRow(EmulatedText(ts, os, units, float), Keywords()[k]);
            var c := if k < 9 then WideChannels(ts, os, units)[k] else NarrowChannels(ts, os, units)[k - 9];
            row >= 0 && ChannelAt(EmulatedText(ts, os, units, float), row, c, float, k < 9)
  {
    hide Quantities, InRange, ChannelOk, WideChannels, NarrowChannels, Keywords, Spaced, Tokens, ChannelAt, LastRow,
         DatagramTokens, Fields, WideRow, NarrowRow;
    EmulatedOk(ts, os, units, float);
    WideFits(ts, os, units);
    NarrowFits(ts, os, units);
    KeywordsAre(ts, os, units);
    var wide, narrow := WideChannels(ts, os, units), NarrowChannels(ts, os, units);
    EmulatedFields(wide, narrow, float);
    if k < 9 {
      WideFound(wide, narrow, float, k);
    } else {
      NarrowFound(wide, narrow, float, k - 9);
    }
  }

  /** Positions of the target and object keywords among the eleven. */
  const TARGET_INDEX: seq<nat> := [0, 1, 2, 3, 9]
  const OBJECT_INDEX: seq<nat> := [4, 5, 6, 7, 8, 10]

  lemma IndexOf()
    ensures forall j :: 0 <= j < 5 ==> TARGET_INDEX[j] < 11 && TARGET_KEYWORDS[j] == Keywords()[TARGET_INDEX[j]]
    ensures forall j :: 0 <= j < 6 ==> OBJECT_INDEX[j] < 11 && OBJECT_KEYWORDS[j] == Keywords()[OBJECT_INDEX[j]]
  {
  }

  function EmulatedList(ts: seq<Target>, os: seq<Object>, units: Units, k: nat): Channel
    requires k < 11 && |units.offsets| == 11
  {
    if k < 9 then WideChannels(ts, os, units)[k] else NarrowChannels(ts, os, units)[k - 9]
  }

  lemma ListLengths(ts: seq<Target>, os: seq<Object>, units: Units)
    requires |units.offsets| == 11
    ensures forall j :: 0 <= j < 5 ==>
              && TARGET_INDEX[j] < 11
              && |EmulatedList(ts, os, units, TARGET_INDEX[j]).values| == |ts|
    ensures forall j :: 0 <= j < 6 ==>
              && OBJECT_INDEX[j] < 11
              && |EmulatedList(ts, os, units, OBJECT_INDEX[j]).values| == |os|
  {
    hide Quantities;
  }

  /** The channel with a keyword is there, with n entries. */
  ghost predicate Reads(fields: seq<string>, keyword: string, n: nat) {
    var row := LastRow(fields, keyword);
    row >= 0 && row + 4 + n <= |fields| && EntriesAt(fields, row) == n
  }

  lemma AllRead(fields: seq<string>, keywords: seq<string>, n: nat)
    requires keywords != [] && forall j :: 0 <= j < |keywords| ==> Reads(fields, keywords[j], n)
    ensures HeadsThere(fields, keywords) && EntriesOk(fields, keywords) && RowsThere(fields, keywords, n)
    ensures EntriesAt(fields, LastRow(fields, keywords[0])) == n
  {
    hide LastRow, EntriesAt;
    assert forall j :: 0 <= j < |keywords| ==> Reads(fields, keywords[j], n);
  }

  lemma EmulatedEntries(ts: seq<Target>, os: seq<Object>, units: Units, float: nat -> real, k: nat, n: nat)
    requires Emulable(ts, os, units, float) && k < 11 && n < 0x8000
    requires |EmulatedList(ts, os, units, k).values| == n
    ensures Reads(EmulatedText(ts, os, units, float), Keywords()[k], n)
  {
    EmulableIs(ts, os, units, float);
    hide Quantities, WideChannels, NarrowChannels, Keywords, LastRow, EmulatedText, Emulable, ChannelTokens, InRange,
         EntriesAt;
    EmulatedChannel(ts, os, units, float, k);
    ChannelHead(EmulatedText(ts, os, units, float), LastRow(EmulatedText(ts, os, units, float), Keywords()[k]),
                EmulatedList(ts, os, units, k), float, k < 9);
  }

  /** The parser accepts the raw targets of an emulated text, all of them. */
  lemma TargetsAccepted(ts: seq<Target>, os: seq<Object>, units: Units, float: nat -> real)
    requires Emulable(ts, os, units, float)
    ensures var fields := EmulatedText(ts, os, units, float);
            && HeadsThere(fields, TARGET_KEYWORDS) && EntriesOk(fields, TARGET_KEYWORDS)
            && RowsThere(fields, TARGET_KEYWORDS, |ts|)
            && EntriesAt(fields, LastRow(fields, TARGET_KEYWORDS[0])) == |ts|
  {
    assert |ts| < 0x8000;
    IndexOf();
    ListLengths(ts, os, units);
    hide *;
    forall j | 0 <= j < 5
      ensures Reads(EmulatedText(ts, os, units, float), TARGET_KEYWORDS[j], |ts|)
    {
      EmulatedEntries(ts, os, units, float, TARGET_INDEX[j], |ts|);
    }
    AllRead(EmulatedText(ts, os, units, float), TARGET_KEYWORDS, |ts|);
  }

  /** The parser accepts the objects of an emulated text, all of them. */
  lemma ObjectsAccepted(ts: seq<Target>, os: seq<Object>, units: Units, float: nat -> real)
    requires Emulable(ts, os, units, float)
    ensures var fields := EmulatedText(ts, os, units, float);
            && HeadsThere(fields, OBJECT_KEYWORDS) && EntriesOk(fields, OBJECT_KEYWORDS)
            && RowsThere(fields, OBJECT_KEYWORDS, |os|)
            && EntriesAt(fields, LastRow(fields, OBJECT_KEYWORDS[0])) == |os|
  {
    assert |os| < 0x8000;
    IndexOf();
    ListLengths(ts, os, units);
    hide *;
    forall j | 0 <= j < 6
      ensures Reads(EmulatedText(ts, os, units, float), OBJECT_KEYWORDS[j], |os|)
    {
      EmulatedEntries(ts, os, units, float, OBJECT_INDEX[j], |os|);
    }
    AllRead(EmulatedText(ts, os, units, float), OBJECT_KEYWORDS, |os|);
  }

  /** A 16-bit channel's entry is read within half a step. */
  lemma EntryRecovered(ts: seq<Target>, os: seq<Object>, units: Units, float: nat -> real, k: nat, i: nat)
    requires Emulable(ts, os, units, float) && k < 9 && i < |EmulatedList(ts, os, units, k).values| < 0x8000
    ensures var fields, c := EmulatedText(ts, os, units, float), EmulatedList(ts, os, units, k);
            var row := LastRow(fields, Keywords()[k]);
            && row >= 0 && row + 4 + i < |fields|
            && Near(ValueAt(fields, row, i, float), c.values[i] + Shift(c, float), 0.5 * Factor(c, float))
  {
    assert OffsetsOk(units);
    hide Quantities, WideChannels, NarrowChannels, Keywords, LastRow, EmulatedText, Emulable, ChannelTokens, InRange;
    EmulatedChannel(ts, os, units, float, k);
    WideFits(ts, os, units);
    assert ChannelOk(EmulatedList(ts, os, units, k));
    ChannelReadBack(EmulatedText(ts, os, units, float), LastRow(EmulatedText(ts, os, units, float), Keywords()[k]),
                    EmulatedList(ts, os, units, k), float, i);
  }

  lemma ListFactors(ts: seq<Target>, os: seq<Object>, units: Units, float: nat -> real)
    requires |units.offsets| == 11
    ensures Factor(EmulatedList(ts, os, units, 0), float) == float(FloatWord("42200000"))
    ensures Factor(EmulatedList(ts, os, units, 1), float) == float(FloatWord("3E23D70A"))
    ensures Factor(EmulatedList(ts, os, units, 2), float) == float(FloatWord("3D23D70A"))
    ensures forall k :: 4 <= k < 6 ==> Factor(EmulatedList(ts, os, units, k), float) == float(FloatWord("42800000"))
    ensures forall k :: 6 <= k < 8 ==> Factor(EmulatedList(ts, os, units, k), float) == float(FloatWord("3DCCCCCD"))
    ensures Factor(EmulatedList(ts, os, units, 8), float) == float(FloatWord("3F400000"))
    ensures forall k :: 9 <= k < 11 ==> Factor(EmulatedList(ts, os, units, k), float) == float(FloatWord("3F800000"))
    ensures forall k :: 0 <= k < 11 ==> Shift(EmulatedList(ts, os, units, k), float) == Offset(units, k, float)
  {
    hide Quantities, FloatWord;
  }

  lemma Thousandth(a: real, b: real, shift: real, bound: real)
    requires Near(a, 1000.0 * b + shift, bound)
    ensures Near(a * 0.001, b + shift * 0.001, bound * 0.001)
  {
  }

  lemma EntryIs(fields: seq<string>, keywords: seq<string>, n: int, j: nat, i: nat, float: nat -> real)
    requires RowsThere(fields, keywords, n) && j < |keywords| && i < n
    ensures var row := LastRow(fields, keywords[j]);
            row >= 0 && row + 4 + i < |fields|
            && Entry(fields, keywords, n, j, i, float) == ValueAt(fields, row, i, float)
  {
  }

  lemma TargetEntry(ts: seq<Target>, os: seq<Object>, units: Units, float: nat -> real, j: nat, i: nat)
    requires Emulable(ts, os, units, float) && i < |ts| && j < 4
    ensures RowsThere(EmulatedText(ts, os, units, float), TARGET_KEYWORDS, |ts|)
    ensures |EmulatedList(ts, os, units, j).values| == |ts|
    ensures var c := EmulatedList(ts, os, units, j);
            Near(Entry(EmulatedText(ts, os, units, float), TARGET_KEYWORDS, |ts|, j, i, float),
                 c.values[i] + Shift(c, float), 0.5 * Factor(c, float))
  {
    assert |ts| < 0x8000;
    IndexOf();
    ListLengths(ts, os, units);
    assert TARGET_INDEX[j] == j;
    hide *;
    TargetsAccepted(ts, os, units, float);
    EntryRecovered(ts, os, units, float, j, i);
    EntryIs(EmulatedText(ts, os, units, float), TARGET_KEYWORDS, |ts|, j, i, float);
  }

  lemma ObjectEntry(ts: seq<Target>, os: seq<Object>, units: Units, float: nat -> real, j: nat, i: nat)
    requires Emulable(ts, os, units, float) && i < |os| && j < 5
    ensures RowsThere(EmulatedText(ts, os, units, float), OBJECT_KEYWORDS, |os|)
    ensures |EmulatedList(ts, os, units, 4 + j).values| == |os|
    ensures var c := EmulatedList(ts, os, units, 4 + j);
            Near(Entry(EmulatedText(ts, os, units, float), OBJECT_KEYWORDS, |os|, j, i, float),
                 c.values[i] + Shift(c, float), 0.5 * Factor(c, float))
  {
    assert |os| < 0x8000;
    IndexOf();
    ListLengths(ts, os, units);
    assert OBJECT_INDEX[j] == 4 + j;
    hide *;
    ObjectsAccepted(ts, os, units, float);
    EntryRecovered(ts, os, units, float, 4 + j, i);
    EntryIs(EmulatedText(ts, os, units, float), OBJECT_KEYWORDS, |os|, j, i, float);
  }

  lemma TargetQuantities(ts: seq<Target>, os: seq<Object>, units: Units, i: nat)
    requires i < |ts| && |units.offsets| == 11
    ensures EmulatedList(ts, os, units, 0).values[i] == 1000.0 * ts[i].dist
    ensures EmulatedList(ts, os, units, 1).values[i] == units.degrees * ts[i].azimuth
    ensures EmulatedList(ts, os, units, 2).values[i] == ts[i].vrad
    ensures EmulatedList(ts, os, units, 9).values[i] == ts[i].mode
  {
  }

  lemma ObjectQuantities(ts: seq<Target>, os: seq<Object>, units: Units, i: nat)
    requires i < |os| && |units.offsets| == 11
    ensures EmulatedList(ts, os, units, 4).values[i] == os[i].p3dx
            && EmulatedList(ts, os, units, 5).values[i] == os[i].p3dy
    ensures EmulatedList(ts, os, units, 6).values[i] == os[i].v3dx
            && EmulatedList(ts, os, units, 7).values[i] == os[i].v3dy
    ensures EmulatedList(ts, os, units, 8).values[i] == os[i].objLength
    ensures EmulatedList(ts, os, units, 10).values[i] == os[i].objId
  {
  }

  // ---- values that are rounded once more: amplitude, mode and identifier ----

  /** Adding half before cutting towards zero moves negative integers up by one. */
  lemma NearestOf(s: int)
    ensures Nearest(s as real) == if s >= 0 then s as real else (s + 1) as real
  {
    FloorHalf(s);
    FloorHalf(-s - 1);
    assert -(s as real + 0.5) == (-s - 1) as real + 0.5;
  }

  lemma FloorHalf(n: int)
    ensures (n as real + 0.5).Floor == n
  {
  }

  /** A value and its rounded step: rounding once more keeps within half a step exactly for these. */
  lemma NearestWithinHalf(val: real)
    ensures var s := Rounded(val, 1.0);
            Near(Nearest(s as real), val, 0.5) <==> s >= 0 || val == s as real + 0.5
  {
    var s := Rounded(val, 1.0);
    RoundedWithinHalf(val, 1.0);
    NearestOf(s);
  }

  lemma OneWord()
    ensures |"3F800000"| == 8 && FloatWord("3F800000") == ONE
  {
    hide HexNumber, HexPrefix;
    assert PairByte("3F800000", 0) == 0x3F by { PairIs("3F800000", 0, "3F"); TwoDigitNumber("3F"); }
    assert PairByte("3F800000", 1) == 0x80 by { PairIs("3F800000", 1, "80"); TwoDigitNumber("80"); }
    assert PairByte("3F800000", 2) == 0 by { PairIs("3F800000", 2, "00"); TwoDigitNumber("00"); }
    assert PairByte("3F800000", 3) == 0 by { PairIs("3F800000", 3, "00"); TwoDigitNumber("00"); }
  }

  lemma PairIs(str: string, i: nat, pair: string)
    requires 2 * i + 2 <= |str| && str[2 * i..2 * i + 2] == pair
    ensures PairByte(str, i) == GetHexValue(pair) % 0x100
  {
  }

  lemma TwoDigitNumber(t: string)
    requires |t| == 2 && AllHex(t)
    ensures GetHexValue(t) == 16 * HexValue(t[0]) + HexValue(t[1]) < 0x100
  {
    TwoDigits(t);
    assert t[..1] == [t[0]] && [t[0]][..0] == "";
    assert HexNumber(t) == 16 * HexNumber([t[0]]) + HexValue(t[1]);
  }

  lemma AmplitudeChannel(ts: seq<Target>, os: seq<Object>, units: Units, float: nat -> real, i: nat)
    requires i < |ts| && float(ONE) == 1.0 && |units.offsets| == 11
    ensures var c := EmulatedList(ts, os, units, 3);
            && c == WideChannels(ts, os, units)[3] && |c.values| == |ts|
            && Factor(c, float) == 1.0 && Shift(c, float) == Offset(units, 3, float) && |c.scale| == 8
            && AllHex(c.scale)
            && Steps(c, float, i) == Rounded(ts[i].ampl, 1.0)
    ensures |TARGET_KEYWORDS| == 5 && Keywords()[3] == TARGET_KEYWORDS[3]
  {
    hide FloatWord, Rounded, HexNumber;
    OneWord();
    var c := EmulatedList(ts, os, units, 3);
    assert c.scale == "3F800000" && c.values[i] == ts[i].ampl;
  }

  lemma EmulableIs(ts: seq<Target>, os: seq<Object>, units: Units, float: nat -> real)
    requires Emulable(ts, os, units, float)
    ensures |ts| < 0x8000 && |os| < 0x8000 && float(ONE) == 1.0 && |units.offsets| == 11
  {
  }

  /** The amplitude channel has step 1: its value is the rounded amplitude, from the offset on. */
  lemma AmplitudeRead(ts: seq<Target>, os: seq<Object>, units: Units, float: nat -> real, i: nat)
    requires Emulable(ts, os, units, float) && i < |ts|
    ensures RowsThere(EmulatedText(ts, os, units, float), TARGET_KEYWORDS, |ts|)
    ensures Entry(EmulatedText(ts, os, units, float), TARGET_KEYWORDS, |ts|, 3, i, float)
            == Rounded(ts[i].ampl, 1.0) as real + Offset(units, 3, float)
  {
    hide *;
    EmulableIs(ts, os, units, float);
    var c := EmulatedList(ts, os, units, 3);
    AmplitudeChannel(ts, os, units, float, i);
    var fields, row := EmulatedText(ts, os, units, float),
      LastRow(EmulatedText(ts, os, units, float), Keywords()[3]);
    TargetsAccepted(ts, os, units, float);
    EmulatedChannel(ts, os, units, float, 3);
    ChannelReadBack(fields, row, c, float, i);
    EntryIs(fields, TARGET_KEYWORDS, |ts|, 3, i, float);
  }

  lemma EmulatedListIs(ts: seq<Target>, os: seq<Object>, units: Units, k: nat)
    requires k < 11 && |units.offsets| == 11
    ensures EmulatedList(ts, os, units, k)
            == if k < 9 then WideChannels(ts, os, units)[k] else NarrowChannels(ts, os, units)[k - 9]
  {
  }

  /** An entry of an 8-bit channel of step 1, as it stands in a row. */
  ghost predicate NarrowEntry(fields: seq<string>, row: int, i: nat, val: real, shift: real, float: nat -> real) {
    && 0 <= row && row + 4 + i < |fields| && float(FloatWord(fields[row + 1])) == 1.0
    && var raw := GetHexValue(fields[row + 4 + i]);
       && raw >= 0 && (raw == Rounded(val, 1.0) <==> 0 <= Rounded(val, 1.0) < 256)
       && ValueAt(fields, row, i, float) == raw as real + shift
  }

  lemma NarrowEntryAt(fields: seq<string>, row: nat, c: Channel, float: nat -> real, i: nat)
    requires ChannelAt(fields, row, c, float, false) && i < |c.values| < 0x8000 && Factor(c, float) == 1.0
    ensures NarrowEntry(fields, row, i, c.values[i], Shift(c, float), float)
  {
    hide GetHexValue, FloatWord, Rounded, ChannelTokens, InRange;
    NarrowReadBack(fields, row, c, float, i);
    ChannelHead(fields, row, c, float, false);
    StepsIs(c, float, i);
  }

  lemma NarrowEntryRead(ts: seq<Target>, os: seq<Object>, units: Units, float: nat -> real, k: nat, i: nat)
    requires Emulable(ts, os, units, float) && 9 <= k < 11 && i < |EmulatedList(ts, os, units, k).values| < 0x8000
    ensures var fields, c := EmulatedText(ts, os, units, float), EmulatedList(ts, os, units, k);
            NarrowEntry(fields, LastRow(fields, Keywords()[k]), i, c.values[i], Offset(units, k, float), float)
  {
    hide Emulable, EmulatedText, Keywords, LastRow, NarrowEntry, Factor, Shift, Offset, FloatWord, EmulatedList;
    EmulableIs(ts, os, units, float);
    var c := EmulatedList(ts, os, units, k);
    ListFactors(ts, os, units, float);
    OneWord();
    EmulatedListIs(ts, os, units, k);
    hide *;
    EmulatedChannel(ts, os, units, float, k);
    var fields := EmulatedText(ts, os, units, float);
    NarrowEntryAt(fields, LastRow(fields, Keywords()[k]), c, float, i);
  }

  lemma RoundedAgain(raw: nat)
    ensures Nearest(raw as real) == raw as real && Nearest(raw as real * 1.0) == raw as real
  {
    NearestOf(raw);
  }

  /** An identifier never sees the offset; another entry is the rounded one if there is no offset. */
  lemma NarrowNearest(fields: seq<string>, row: int, i: nat, val: real, shift: real, float: nat -> real)
    requires NarrowEntry(fields, row, i, val, shift, float)
    ensures IdAt(fields, row, i, float) == Rounded(val, 1.0) as real <==> 0 <= Rounded(val, 1.0) < 256
    ensures 0 <= Rounded(val, 1.0) < 256 ==>
              Nearest(ValueAt(fields, row, i, float)) == Nearest(Rounded(val, 1.0) as real + shift)
    ensures shift == 0.0 ==>
              (Nearest(ValueAt(fields, row, i, float)) == Rounded(val, 1.0) as real <==> 0 <= Rounded(val, 1.0) < 256)
  {
    hide GetHexValue, FloatWord, Rounded, Nearest, ValueAt;
    RoundedAgain(GetHexValue(fields[row + 4 + i]));
  }

  /** What is returned for a mode: the rounded one with the offset added, or, without one, exactly for 0 .. 255. */
  ghost predicate ModeIs(mode: real, val: real, shift: real) {
    && (0 <= Rounded(val, 1.0) < 256 ==> mode == Nearest(Rounded(val, 1.0) as real + shift))
    && (shift == 0.0 ==> (mode == Rounded(val, 1.0) as real <==> 0 <= Rounded(val, 1.0) < 256))
  }

  lemma ModeRecovered(ts: seq<Target>, os: seq<Object>, units: Units, float: nat -> real, i: nat)
    requires Emulable(ts, os, units, float) && i < |ts|
    ensures RowsThere(EmulatedText(ts, os, units, float), TARGET_KEYWORDS, |ts|)
    ensures ModeIs(Nearest(Entry(EmulatedText(ts, os, units, float), TARGET_KEYWORDS, |ts|, 4, i, float)), ts[i].mode,
                   Offset(units, 9, float))
  {
    hide Emulable, EmulatedList, Keywords, EmulatedText, RowsThere, Entry, Offset, Quantities, Nearest, Rounded,
         LastRow, IdAt, FloatWord, NarrowEntry;
    EmulableIs(ts, os, units, float);
    ListLengths(ts, os, units);
    IndexOf();
    TargetQuantities(ts, os, units, i);
    assert TARGET_INDEX[4] == 9;
    hide *;
    TargetsAccepted(ts, os, units, float);
    NarrowEntryRead(ts, os, units, float, 9, i);
    var fields := EmulatedText(ts, os, units, float);
    EntryIs(fields, TARGET_KEYWORDS, |ts|, 4, i, float);
    NarrowNearest(fields, LastRow(fields, Keywords()[9]), i, ts[i].mode, Offset(units, 9, float), float);
  }

  lemma IdRecovered(ts: seq<Target>, os: seq<Object>, units: Units, float: nat -> real, i: nat)
    requires Emulable(ts, os, units, float) && i < |os|
    ensures RowsThere(EmulatedText(ts, os, units, float), OBJECT_KEYWORDS, |os|)
    ensures var fields := EmulatedText(ts, os, units, float);
            var row := LastRow(fields, OBJECT_KEYWORDS[5]);
            && 0 <= row && row + 4 + i < |fields|
            && (IdAt(fields, row, i, float) == Rounded(os[i].objId, 1.0) as real
                <==> 0 <= Rounded(os[i].objId, 1.0) < 256)
  {
    hide Emulable, EmulatedList, Keywords, EmulatedText, RowsThere, Entry, Offset, Quantities, Nearest, Rounded,
         LastRow, IdAt, FloatWord, NarrowEntry;
    EmulableIs(ts, os, units, float);
    ListLengths(ts, os, units);
    IndexOf();
    ObjectQuantities(ts, os, units, i);
    assert OBJECT_INDEX[5] == 10;
    hide *;
    ObjectsAccepted(ts, os, units, float);
    NarrowEntryRead(ts, os, units, float, 10, i);
    var fields := EmulatedText(ts, os, units, float);
    NarrowNearest(fields, LastRow(fields, Keywords()[10]), i, os[i].objId, Offset(units, 10, float), float);
    EntryIs(fields, OBJECT_KEYWORDS, |os|, 5, i, float);
  }

  /** What is returned for an amplitude. */
  ghost predicate AmplitudeIs(ampl: real, val: real, shift: real) {
    && ampl == Nearest(Rounded(val, 1.0) as real + shift)
    && (shift == 0.0 ==> (Near(ampl, val, 0.5) <==> Rounded(val, 1.0) >= 0 || val == Rounded(val, 1.0) as real + 0.5))
  }

  /**
   Every emulated raw target comes back through text and parser, whatever the scales and offsets its channels announce:
   distance, azimuth (in degrees) and radial velocity, counted from the offset, are off by at most half a step of their
   channels. Without an offset the amplitude is, if and only if its rounded value is not negative or lies half below it;
   the mode comes back as its rounded value if and only if that is 0 to 255.
   */
  lemma TargetRecovered(ts: seq<Target>, os: seq<Object>, units: Units, float: nat -> real, i: nat)
    requires Emulable(ts, os, units, float) && i < |ts|
    ensures RowsThere(EmulatedText(ts, os, units, float), TARGET_KEYWORDS, |ts|)
    ensures var t := TargetAt(EmulatedText(ts, os, units, float), |ts|, i, float);
            && Near(t.dist, ts[i].dist + Offset(units, 0, float) * 0.001, 0.5 * float(FloatWord("42200000")) * 0.001)
            && Near(t.azimuth, units.degrees * ts[i].azimuth + Offset(units, 1, float),
                    0.5 * float(FloatWord("3E23D70A")))
            && Near(t.vrad, ts[i].vrad + Offset(units, 2, float), 0.5 * float(FloatWord("3D23D70A")))
            && AmplitudeIs(t.ampl, ts[i].ampl, Offset(units, 3, float))
            && ModeIs(t.mode, ts[i].mode, Offset(units, 9, float))
  {
    hide EmulatedText, EmulatedList, Emulable, Near, FloatWord, Factor, Shift, Offset, RowsThere, Entry, Nearest,
         Rounded, ModeIs;
    EmulableIs(ts, os, units, float);
    TargetQuantities(ts, os, units, i);
    ListFactors(ts, os, units, float);
    TargetEntry(ts, os, units, float, 0, i);
    TargetEntry(ts, os, units, float, 1, i);
    TargetEntry(ts, os, units, float, 2, i);
    Thousandth(Entry(EmulatedText(ts, os, units, float), TARGET_KEYWORDS, |ts|, 0, i, float), ts[i].dist,
               Offset(units, 0, float), 0.5 * float(FloatWord("42200000")));
    AmplitudeRead(ts, os, units, float, i);
    NearestWithinHalf(ts[i].ampl);
    ModeRecovered(ts, os, units, float, i);
  }

  /** An amplitude of -2 is printed as FFFE, read as -2, and returned as -1. */
  lemma NegativeAmplitudeMoves()
    ensures Rounded(-2.0, 1.0) == -2 && Nearest(-2.0) == -1.0 && !Near(-1.0, -2.0, 0.5)
  {
    assert -2.0 / 1.0 == -2.0 && (2.5).Floor == 2 && (1.5).Floor == 1;
  }

  /**
   Every emulated object comes back, whatever the scales and offsets its channels announce: position (millimetres become
   metres), velocity and length, counted from the offset, within half a step, and the identifier, which takes no offset,
   as its rounded value if and only if that is 0 to 255.
   */
  lemma ObjectRecovered(ts: seq<Target>, os: seq<Object>, units: Units, float: nat -> real, i: nat)
    requires Emulable(ts, os, units, float) && i < |os|
    ensures RowsThere(EmulatedText(ts, os, units, float), OBJECT_KEYWORDS, |os|)
    ensures var o := ObjectAt(EmulatedText(ts, os, units, float), |os|, i, float);
            && Near(o.p3dx, (os[i].p3dx + Offset(units, 4, float)) * 0.001, 0.5 * float(FloatWord("42800000")) * 0.001)
            && Near(o.p3dy, (os[i].p3dy + Offset(units, 5, float)) * 0.001, 0.5 * float(FloatWord("42800000")) * 0.001)
            && Near(o.v3dx, os[i].v3dx + Offset(units, 6, float), 0.5 * float(FloatWord("3DCCCCCD")))
            && Near(o.v3dy, os[i].v3dy + Offset(units, 7, float), 0.5 * float(FloatWord("3DCCCCCD")))
            && Near(o.objLength, os[i].objLength + Offset(units, 8, float), 0.5 * float(FloatWord("3F400000")))
            && (o.objId == Rounded(os[i].objId, 1.0) as real <==> 0 <= Rounded(os[i].objId, 1.0) < 256)
  {
    hide EmulatedText, EmulatedList, Emulable, Near, FloatWord, Factor, Shift, Offset, RowsThere, Entry, IdAt, Rounded;
    EmulableIs(ts, os, units, float);
    IdRecovered(ts, os, units, float, i);
    ObjectQuantities(ts, os, units, i);
    ListFactors(ts, os, units, float);
    ObjectEntry(ts, os, units, float, 0, i);
    ObjectEntry(ts, os, units, float, 1, i);
    ObjectEntry(ts, os, units, float, 2, i);
    ObjectEntry(ts, os, units, float, 3, i);
    ObjectEntry(ts, os, units, float, 4, i);
    var fields, step := EmulatedText(ts, os, units, float), 0.5 * float(FloatWord("42800000"));
    Shrink(Entry(fields, OBJECT_KEYWORDS, |os|, 0, i, float), os[i].p3dx + Offset(units, 4, float), step);
    Shrink(Entry(fields, OBJECT_KEYWORDS, |os|, 1, i, float), os[i].p3dy + Offset(units, 5, float), step);
  }

  lemma Shrink(a: real, b: real, bound: real)
    requires Near(a, b, bound)
    ensures Near(a * 0.001, b * 0.001, bound * 0.001)
  {
  }
}
