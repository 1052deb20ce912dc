/** The emulated radar datagram as text, and the search for its channels by keyword. */
module RadarEmulator {
  import opened RadarText

  datatype Target = Target(dist: real, azimuth: real, vrad: real, ampl: real, mode: real)

  datatype Object = Object(p3dx: real, p3dy: real, v3dx: real, v3dy: real, objLength: real, objId: real)

  /**
   A channel of the datagram: keyword, scale and offset as the texts of floats, and values in the channel's unit,
   counted from the offset.
   */
  datatype Channel = Channel(keyword: string, scale: string, offset: string, values: seq<real>)

  const HEADER: seq<string> :=
    ["\U{0002}sSN", "LMDradardata", "1", "1", "112F6E9", "0", "0", "DFB6", "B055", "6E596002", "6E5AE0E5",
     "0", "0", "0", "0", "0", "0", "1", "0", "0"]
  const HEADER_TEXT: string :=
    "\U{0002}sSN LMDradardata 1 1 112F6E9 " + "0 0 DFB6 B055 6E596002 " + "6E5AE0E5 0 0 0 0 " + "0 0 1 0 0 "
  const TRAILER: seq<string> := ["0", "0", "0", "0", "0"]
  const LAST: string := "0\U{0003}"

  /** Step of a channel: the float its scale stands for. */
  function Factor(c: Channel, float: nat -> real): real {
    float(FloatWord(c.scale))
  }

  function Shift(c: Channel, float: nat -> real): real {
    float(FloatWord(c.offset))
  }

  function Steps(c: Channel, float: nat -> real, j: nat): int
    requires j < |c.values| && Factor(c, float) > 0.0
  {
    Rounded(c.values[j], Factor(c, float))
  }

  /** The step is positive and every rounded value is a short. */
  ghost predicate InRange(c: Channel, float: nat -> real) {
    && Factor(c, float) > 0.0
    && forall j :: 0 <= j < |c.values| ==> -0x8000 <= Steps(c, float, j) < 0x8000
  }

  ghost predicate AllInRange(cs: seq<Channel>, float: nat -> real) {
    forall i :: 0 <= i < |cs| ==> InRange(cs[i], float)
  }

  function Printed(c: Channel, float: nat -> real, wide: bool): (ts: seq<string>)
    requires InRange(c, float)
    ensures |ts| == |c.values|
  {
    seq(|c.values|, j requires 0 <= j < |c.values| =>
      if wide then Print16(Steps(c, float, j)) else Print8(Steps(c, float, j)))
  }

  function ChannelTokens(c: Channel, float: nat -> real, wide: bool): (ts: seq<string>)
    requires InRange(c, float)
    ensures |ts| == 4 + |c.values|
  {
    [c.keyword, c.scale, c.offset, HexText(|c.values|)] + Printed(c, float, wide)
  }

  function ListTokens(cs: seq<Channel>, float: nat -> real, wide: bool): seq<string>
    requires AllInRange(cs, float)
  {
    if cs == [] then [] else ListTokens(cs[..|cs| - 1], float, wide) + ChannelTokens(cs[|cs| - 1], float, wide)
  }

  function DatagramTokens(wide: seq<Channel>, narrow: seq<Channel>, float: nat -> real): seq<string>
    requires AllInRange(wide, float) && AllInRange(narrow, float)
  {
    HEADER + [HexText(|wide|)] + ListTokens(wide, float, true) + [HexText(|narrow|)] + ListTokens(narrow, float, false)
    + TRAILER
  }

  // ---- writing the text ----

  lemma SpacedOne(t: string)
    ensures Spaced([t]) == t + " "
  {
    assert [t][1..] == [] && t + " " + "" == t + " ";
  }

  lemma SpacedMore(ts: seq<string>, t: string)
    ensures Spaced(ts + [t]) == Spaced(ts) + t + " "
  {
    SpacedConcat(ts, [t]);
    SpacedOne(t);
  }

  /** One channel: its introduction, the number of its values, the values. */
  method WriteChannel(text: string, c: Channel, float: nat -> real, wide: bool) returns (resultStr: string)
    requires InRange(c, float)
    ensures resultStr == text + Spaced(ChannelTokens(c, float, wide))
  {
    hide Spaced, HexText, Print16, Print8, Steps, Rounded;
    resultStr := text + (c.keyword + " " + c.scale + " " + c.offset);
    resultStr := resultStr + (" " + HexText(|c.values|) + " ");
    ghost var intro := [c.keyword, c.scale, c.offset, HexText(|c.values|)];
    IntroText(c.keyword, c.scale, c.offset, HexText(|c.values|));
    assert resultStr == text + Spaced(intro);
    assert intro + Printed(c, float, wide)[..0] == intro;
    var j := 0;
    while j < |c.values|
      invariant 0 <= j <= |c.values|
      invariant resultStr == text + Spaced(intro + Printed(c, float, wide)[..j])
    {
      var shortVal := Rounded(c.values[j], Factor(c, float));
      assert shortVal == Steps(c, float, j) by { StepsIs(c, float, j); }
      var digits := if wide then Print16(shortVal) else Print8(shortVal);
      ghost var before := intro + Printed(c, float, wide)[..j];
      SpacedMore(before, digits);
      assert before + [digits] == intro + Printed(c, float, wide)[..j + 1];
      resultStr := resultStr + digits;
      resultStr := resultStr + " ";
      j := j + 1;
    }
    assert intro + Printed(c, float, wide)[..j] == ChannelTokens(c, float, wide);
  }

  lemma StepsIs(c: Channel, float: nat -> real, j: nat)
    requires j < |c.values| && Factor(c, float) > 0.0
    ensures Steps(c, float, j) == Rounded(c.values[j], Factor(c, float))
  {
  }

  lemma IntroText(keyword: string, scale: string, offset: string, count: string)
    ensures Spaced([keyword, scale, offset, count]) == keyword + " " + scale + " " + offset + (" " + count + " ")
  {
    hide Spaced;
    assert [keyword, scale, offset, count] == [] + [keyword] + [scale] + [offset] + [count];
    SpacedMore([], keyword);
    SpacedMore([] + [keyword], scale);
    SpacedMore([] + [keyword] + [scale], offset);
    SpacedMore([] + [keyword] + [scale] + [offset], count);
    assert Spaced([]) == "" by { SpacedNone(); }
  }

  /** In the text a channel starts with its keyword, its scale, its offset and the number of its values. */
  lemma ChannelText(c: Channel, float: nat -> real, wide: bool)
    requires InRange(c, float)
    ensures Spaced(ChannelTokens(c, float, wide))
            == c.keyword + " " + c.scale + " " + c.offset + " " + HexText(|c.values|) + " "
               + Spaced(Printed(c, float, wide))
  {
    hide Spaced, HexText, Printed, InRange;
    var intro := [c.keyword, c.scale, c.offset, HexText(|c.values|)];
    SpacedConcat(intro, Printed(c, float, wide));
    IntroText(c.keyword, c.scale, c.offset, HexText(|c.values|));
  }

  lemma SpacedNone()
    ensures Spaced([]) == ""
  {
  }

  method WriteChannels(text: string, cs: seq<Channel>, float: nat -> real, wide: bool) returns (resultStr: string)
    requires AllInRange(cs, float)
    ensures resultStr == text + Spaced(ListTokens(cs, float, wide))
  {
    hide Spaced, ChannelTokens, InRange;
    SpacedNone();
    resultStr := text;
    for i := 0 to |cs|
      invariant resultStr == text + Spaced(ListTokens(cs[..i], float, wide))
    {
      assert cs[..i + 1][..i] == cs[..i];
      SpacedConcat(ListTokens(cs[..i], float, wide), ChannelTokens(cs[i], float, wide));
      resultStr := WriteChannel(resultStr, cs[i], float, wide);
    }
    assert cs[..|cs|] == cs;
  }

  /** The text of a datagram: header, 16-bit channels, 8-bit channels, trailer. */
  method SimulateAsciiDatagram(wide: seq<Channel>, narrow: seq<Channel>, float: nat -> real) returns (resultStr: string)
    requires AllInRange(wide, float) && AllInRange(narrow, float)
    ensures resultStr == Spaced(DatagramTokens(wide, narrow, float)) + LAST
  {
    hide Spaced, ListTokens, AllInRange, HexText;
    resultStr := HEADER_TEXT;
    HeaderText();
    resultStr := resultStr + (HexText(|wide|) + " ");
    SpacedMore(HEADER, HexText(|wide|));
    ghost var a := HEADER + [HexText(|wide|)];
    resultStr := WriteChannels(resultStr, wide, float, true);
    SpacedConcat(a, ListTokens(wide, float, true));
    ghost var b := a + ListTokens(wide, float, true);
    resultStr := resultStr + (HexText(|narrow|) + " ");
    SpacedMore(b, HexText(|narrow|));
    ghost var c := b + [HexText(|narrow|)];
    resultStr := WriteChannels(resultStr, narrow, float, false);
    SpacedConcat(c, ListTokens(narrow, float, false));
    ghost var d := c + ListTokens(narrow, float, false);
    resultStr := resultStr + "0 0 0 0 0 0\U{0003}";
    SpacedConcat(d, TRAILER);
    TrailerText();
    assert Spaced(d) + (Spaced(TRAILER) + LAST) == Spaced(d) + Spaced(TRAILER) + LAST;
  }

  lemma SpacedFive(a: string, b: string, c: string, d: string, e: string)
    ensures Spaced([a, b, c, d, e]) == a + " " + b + " " + c + " " + d + " " + e + " "
  {
    hide Spaced;
    SpacedNone();
    SpacedMore([], a);
    SpacedMore([a], b);
    SpacedMore([a, b], c);
    SpacedMore([a, b, c], d);
    SpacedMore([a, b, c, d], e);
    assert [] + [a] == [a] && [a] + [b] == [a, b] && [a, b] + [c] == [a, b, c];
    assert [a, b, c] + [d] == [a, b, c, d] && [a, b, c, d] + [e] == [a, b, c, d, e];
    assert "" + a + " " == a + " ";
  }

  lemma TrailerText()
    ensures Spaced(TRAILER) + LAST == "0 0 0 0 0 0\U{0003}"
  {
    hide Spaced;
    SpacedFive("0", "0", "0", "0", "0");
  }

  lemma HeaderTextA()
    ensures Spaced(["\U{0002}sSN", "LMDradardata", "1", "1", "112F6E9"]) == "\U{0002}sSN LMDradardata 1 1 112F6E9 "
  {
    SpacedFive("\U{0002}sSN", "LMDradardata", "1", "1", "112F6E9");
    hide Spaced;
  }

  lemma HeaderTextB()
    ensures Spaced(["0", "0", "DFB6", "B055", "6E596002"]) == "0 0 DFB6 B055 6E596002 "
  {
    SpacedFive("0", "0", "DFB6", "B055", "6E596002");
    hide Spaced;
  }

  lemma HeaderTextC()
    ensures Spaced(["6E5AE0E5", "0", "0", "0", "0"]) == "6E5AE0E5 0 0 0 0 "
  {
    SpacedFive("6E5AE0E5", "0", "0", "0", "0");
    hide Spaced;
  }

  lemma HeaderTextD()
    ensures Spaced(["0", "0", "1", "0", "0"]) == "0 0 1 0 0 "
  {
    SpacedFive("0", "0", "1", "0", "0");
    hide Spaced;
  }

  lemma HeaderText()
    ensures Spaced(HEADER) == HEADER_TEXT
  {
    hide Spaced;
    var a := ["\U{0002}sSN", "LMDradardata", "1", "1", "112F6E9"];
    var b := ["0", "0", "DFB6", "B055", "6E596002"];
    var c := ["6E5AE0E5", "0", "0", "0", "0"];
    var d := ["0", "0", "1", "0", "0"];
    assert HEADER == a + b + c + d;
    SpacedConcat(a + b + c, d);
    SpacedConcat(a + b, c);
    SpacedConcat(a, b);
    HeaderTextA();
    HeaderTextB();
    HeaderTextC();
    HeaderTextD();
  }
}
