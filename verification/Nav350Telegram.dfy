/** Whole NAV350 position telegrams: writing, parsing, and what one tells about the other. */
module Nav350Telegram {
  import opened Bytes
  import opened Fields
  import opened Nav350

  /** The text "sAN mNPOSGetData ". */
  const COMMAND: seq<byte> :=
    [0x73, 0x41, 0x4E, 0x20, 0x6D, 0x4E, 0x50, 0x4F, 0x53, 0x47, 0x65, 0x74, 0x44, 0x61, 0x74, 0x61, 0x20]
  const COMMAND_LENGTH: nat := 17
  const HEADER_LENGTH: nat := 8

  // ---- sections: a flag and what it announces ----

  datatype Section<T> = Section(flag: u16, content: T)

  function PutHead(n: NavData): seq<byte> {
    Put(HEAD_WIDTHS, HeadWords(n)) + if n.poseDataValid > 0 then PutPose(n.pose) else []
  }

  function GetHead(buf: seq<byte>, r: Reader): Read<NavData> {
    GetFits(buf, r, HEAD_WIDTHS);
    var g := Get(buf, r, HEAD_WIDTHS);
    var n := NoNavData.(version := g.value[0], errorCode := g.value[1], wait := g.value[2], mask := g.value[3],
                        poseDataValid := g.value[4]);
    if n.poseDataValid > 0 then
      var p := GetPose(buf, g.reader);
      Read(n.(pose := p.value), p.reader)
    else Read(n, g.reader)
  }

  function NormHead(n: NavData): NavData {
    NoNavData.(version := n.version, errorCode := n.errorCode, wait := n.wait, mask := n.mask,
               poseDataValid := n.poseDataValid, pose := if n.poseDataValid > 0 then NormPose(n.pose) else NoPose)
  }

  function PutLandmarkSection(flag: u16, l: Landmark): seq<byte>
    requires flag > 0 ==> l.numReflectors <= |l.reflectors|
  {
    Put(FLAG_WIDTHS, [flag]) + if flag > 0 then PutLandmark(l) else []
  }

  function GetLandmarkSection(buf: seq<byte>, r: Reader): (s: Read<Section<Landmark>>)
    ensures |s.value.content.reflectors| == s.value.content.numReflectors
  {
    GetFits(buf, r, FLAG_WIDTHS);
    var f := Get(buf, r, FLAG_WIDTHS);
    if f.value[0] > 0 then
      var l := GetLandmark(buf, f.reader);
      Read(Section(f.value[0], l.value), l.reader)
    else Read(Section(f.value[0], NoLandmark), f.reader)
  }

  function NormLandmarkSection(flag: u16, l: Landmark): Landmark
    requires flag > 0 ==> l.numReflectors <= |l.reflectors|
  {
    if flag > 0 then NormLandmark(l) else NoLandmark
  }

  function PutScanSection(flag: u16, cs: seq<Channel>): seq<byte>
    requires flag <= |cs| && forall i :: 0 <= i < flag ==> cs[i].numData <= |cs[i].data|
  {
    Put(FLAG_WIDTHS, [flag]) + PutChannels(cs[..flag], SCAN_WIDTH)
  }

  function GetScanSection(buf: seq<byte>, beyond: nat -> byte, r: Reader): (s: Read<Section<seq<Channel>>>)
    ensures |s.value.content| == s.value.flag && Tagged(s.value.content)
    ensures forall i :: 0 <= i < |s.value.content| ==> s.value.content[i].numData == |s.value.content[i].data|
  {
    GetFits(buf, r, FLAG_WIDTHS);
    var f := Get(buf, r, FLAG_WIDTHS);
    var cs := GetChannels(buf, beyond, f.reader, f.value[0], SCAN_WIDTH);
    Read(Section(f.value[0], cs.value), cs.reader)
  }

  function PutRemissionSection(flag: u16, c: Channel): seq<byte>
    requires flag > 0 ==> c.numData <= |c.data|
  {
    Put(FLAG_WIDTHS, [flag]) + if flag > 0 then PutChannel(c, REMISSION_WIDTH) else []
  }

  function GetRemissionSection(buf: seq<byte>, beyond: nat -> byte, r: Reader): (s: Read<Section<Channel>>)
    ensures s.value.content.numData == |s.value.content.data|
    ensures s.value.flag > 0 ==> |s.value.content.contentType| == TAG_LENGTH
  {
    GetFits(buf, r, FLAG_WIDTHS);
    var f := Get(buf, r, FLAG_WIDTHS);
    if f.value[0] > 0 then
      var c := GetChannel(buf, beyond, f.reader, REMISSION_WIDTH);
      Read(Section(f.value[0], c.value), c.reader)
    else Read(Section(f.value[0], NoChannel), f.reader)
  }

  function NormRemission(flag: u16, c: Channel): Channel
    requires flag > 0 ==> c.numData <= |c.data|
  {
    if flag > 0 then NormChannel(c) else NoChannel
  }

  lemma GetPutHead(buf: seq<byte>, r: Reader, n: NavData)
    requires At(buf, r.pos, PutHead(n))
    ensures GetHead(buf, r) == Read(NormHead(n), Reader(r.pos + |PutHead(n)|, r.ok))
  {
    hide Put, Get, PutPose, GetPose;
    AtConcat(buf, r.pos, Put(HEAD_WIDTHS, HeadWords(n)), if n.poseDataValid > 0 then PutPose(n.pose) else []);
    GetPut(buf, r, HEAD_WIDTHS, HeadWords(n));
    if n.poseDataValid > 0 {
      GetPutPose(buf, Get(buf, r, HEAD_WIDTHS).reader, n.pose);
    }
  }

  lemma PutGetHead(buf: seq<byte>, r: Reader)
    requires GetHead(buf, r).reader.ok && GetHead(buf, r).reader.pos <= |buf|
    ensures var g := GetHead(buf, r);
            && r.ok && NormHead(g.value) == g.value
            && At(buf, r.pos, PutHead(g.value)) && g.reader.pos == r.pos + |PutHead(g.value)|
  {
    hide Put, Get, PutPose, GetPose;
    GetFits(buf, r, HEAD_WIDTHS);
    var g := Get(buf, r, HEAD_WIDTHS);
    var n := GetHead(buf, r).value;
    if n.poseDataValid > 0 {
      PutGetPose(buf, g.reader);
      GetWithin(buf, r, HEAD_WIDTHS);
    }
    PutGet(buf, r, HEAD_WIDTHS);
    assert HeadWords(n) == g.value;
    AtConcat(buf, r.pos, Put(HEAD_WIDTHS, g.value), if n.poseDataValid > 0 then PutPose(n.pose) else []);
    AtNothing(buf, g.reader.pos);
  }

  lemma AtNothing(buf: seq<byte>, pos: nat)
    requires pos <= |buf|
    ensures At(buf, pos, [])
  {
  }

  lemma GetPutLandmarkSection(buf: seq<byte>, r: Reader, flag: u16, l: Landmark)
    requires flag > 0 ==> l.numReflectors <= |l.reflectors|
    requires At(buf, r.pos, PutLandmarkSection(flag, l))
    ensures GetLandmarkSection(buf, r)
            == Read(Section(flag, NormLandmarkSection(flag, l)), Reader(r.pos + |PutLandmarkSection(flag, l)|, r.ok))
  {
    hide Put, Get, PutLandmark, GetLandmark;
    AtConcat(buf, r.pos, Put(FLAG_WIDTHS, [flag]), if flag > 0 then PutLandmark(l) else []);
    GetPut(buf, r, FLAG_WIDTHS, [flag]);
    if flag > 0 {
      GetPutLandmark(buf, Get(buf, r, FLAG_WIDTHS).reader, l);
    }
  }

  lemma PutGetLandmarkSection(buf: seq<byte>, r: Reader)
    requires GetLandmarkSection(buf, r).reader.ok && GetLandmarkSection(buf, r).reader.pos <= |buf|
    ensures var g := GetLandmarkSection(buf, r);
            && r.ok && r.pos <= |buf| && NormLandmarkSection(g.value.flag, g.value.content) == g.value.content
            && At(buf, r.pos, PutLandmarkSection(g.value.flag, g.value.content))
            && g.reader.pos == r.pos + |PutLandmarkSection(g.value.flag, g.value.content)|
  {
    hide Put, Get, PutLandmark, GetLandmark;
    GetFits(buf, r, FLAG_WIDTHS);
    var f := Get(buf, r, FLAG_WIDTHS);
    var s := GetLandmarkSection(buf, r).value;
    if s.flag > 0 {
      PutGetLandmark(buf, f.reader);
      GetWithin(buf, r, FLAG_WIDTHS);
    }
    PutGet(buf, r, FLAG_WIDTHS);
    assert f.value == [s.flag];
    AtConcat(buf, r.pos, Put(FLAG_WIDTHS, f.value), if s.flag > 0 then PutLandmark(s.content) else []);
    AtNothing(buf, f.reader.pos);
  }

  lemma GetPutScanSection(buf: seq<byte>, beyond: nat -> byte, r: Reader, flag: u16, cs: seq<Channel>)
    requires flag <= |cs| && ChannelsOk(cs[..flag], SCAN_WIDTH) && Tagged(cs[..flag])
    requires (forall i :: 0 <= i < flag ==> cs[i].numData <= |cs[i].data|) && At(buf, r.pos, PutScanSection(flag, cs))
    ensures GetScanSection(buf, beyond, r)
            == Read(Section(flag, NormChannels(cs[..flag])), Reader(r.pos + |PutScanSection(flag, cs)|, r.ok))
  {
    hide Put, Get, PutChannels, GetChannels;
    AtConcat(buf, r.pos, Put(FLAG_WIDTHS, [flag]), PutChannels(cs[..flag], SCAN_WIDTH));
    GetPut(buf, r, FLAG_WIDTHS, [flag]);
    GetPutChannels(buf, beyond, Get(buf, r, FLAG_WIDTHS).reader, cs[..flag], SCAN_WIDTH);
  }

  lemma PutGetScanSection(buf: seq<byte>, beyond: nat -> byte, r: Reader)
    requires GetScanSection(buf, beyond, r).reader.ok && GetScanSection(buf, beyond, r).reader.pos <= |buf|
    ensures var g := GetScanSection(buf, beyond, r);
            && r.ok && r.pos <= |buf|
            && ChannelsOk(g.value.content, SCAN_WIDTH) && NormChannels(g.value.content) == g.value.content
            && At(buf, r.pos, PutScanSection(g.value.flag, g.value.content))
            && g.reader.pos == r.pos + |PutScanSection(g.value.flag, g.value.content)|
  {
    hide Put, Get, PutChannels, GetChannels;
    GetFits(buf, r, FLAG_WIDTHS);
    var f := Get(buf, r, FLAG_WIDTHS);
    var s := GetScanSection(buf, beyond, r).value;
    PutGetChannels(buf, beyond, f.reader, s.flag, SCAN_WIDTH);
    GetWithin(buf, r, FLAG_WIDTHS);
    PutGet(buf, r, FLAG_WIDTHS);
    assert f.value == [s.flag] && s.content[..s.flag] == s.content;
    AtConcat(buf, r.pos, Put(FLAG_WIDTHS, f.value), PutChannels(s.content, SCAN_WIDTH));
  }

  lemma GetPutRemissionSection(buf: seq<byte>, beyond: nat -> byte, r: Reader, flag: u16, c: Channel)
    requires flag > 0 ==> ChannelOk(c, REMISSION_WIDTH) && |c.contentType| == TAG_LENGTH
    requires At(buf, r.pos, PutRemissionSection(flag, c))
    ensures GetRemissionSection(buf, beyond, r)
            == Read(Section(flag, NormRemission(flag, c)), Reader(r.pos + |PutRemissionSection(flag, c)|, r.ok))
  {
    hide Put, Get, PutChannel, GetChannel;
    AtConcat(buf, r.pos, Put(FLAG_WIDTHS, [flag]), if flag > 0 then PutChannel(c, REMISSION_WIDTH) else []);
    GetPut(buf, r, FLAG_WIDTHS, [flag]);
    if flag > 0 {
      GetPutChannel(buf, beyond, Get(buf, r, FLAG_WIDTHS).reader, c, REMISSION_WIDTH);
    }
  }

  lemma PutGetRemissionSection(buf: seq<byte>, beyond: nat -> byte, r: Reader)
    requires GetRemissionSection(buf, beyond, r).reader.ok && GetRemissionSection(buf, beyond, r).reader.pos <= |buf|
    ensures var g := GetRemissionSection(buf, beyond, r);
            && r.ok && r.pos <= |buf| && NormRemission(g.value.flag, g.value.content) == g.value.content
            && (g.value.flag > 0 ==> ChannelOk(g.value.content, REMISSION_WIDTH))
            && At(buf, r.pos, PutRemissionSection(g.value.flag, g.value.content))
            && g.reader.pos == r.pos + |PutRemissionSection(g.value.flag, g.value.content)|
  {
    hide Put, Get, PutChannel, GetChannel;
    GetFits(buf, r, FLAG_WIDTHS);
    var f := Get(buf, r, FLAG_WIDTHS);
    var s := GetRemissionSection(buf, beyond, r).value;
    if s.flag > 0 {
      PutGetChannel(buf, beyond, f.reader, REMISSION_WIDTH);
      GetWithin(buf, r, FLAG_WIDTHS);
    }
    PutGet(buf, r, FLAG_WIDTHS);
    assert f.value == [s.flag];
    AtConcat(buf, r.pos, Put(FLAG_WIDTHS, f.value), if s.flag > 0 then PutChannel(s.content, REMISSION_WIDTH) else []);
    AtNothing(buf, f.reader.pos);
  }

  // ---- the whole data set ----

  /** What the writer needs: no count exceeds its vector, and remission data have 16 bits. */
  ghost predicate Writable(n: NavData) {
    && (n.landmarkDataValid > 0 ==> n.landmark.numReflectors <= |n.landmark.reflectors|)
    && n.scanDataValid <= |n.scanData| && ChannelsOk(n.scanData, SCAN_WIDTH)
    && (n.remissionDataValid > 0 ==> ChannelOk(n.remission, REMISSION_WIDTH))
  }

  /** Every content tag that is written has five bytes. */
  predicate TagsOk(n: NavData)
    requires n.scanDataValid <= |n.scanData|
  {
    && (forall i :: 0 <= i < n.scanDataValid ==> |n.scanData[i].contentType| == TAG_LENGTH)
    && (n.remissionDataValid > 0 ==> |n.remission.contentType| == TAG_LENGTH)
  }

  function Body(n: NavData): seq<byte>
    requires Writable(n)
  {
    PutHead(n)
    + PutLandmarkSection(n.landmarkDataValid, n.landmark)
    + PutScanSection(n.scanDataValid, n.scanData)
    + PutRemissionSection(n.remissionDataValid, n.remission)
  }

  function GetBody(buf: seq<byte>, beyond: nat -> byte, r: Reader): Read<NavData> {
    var h := GetHead(buf, r);
    var l := GetLandmarkSection(buf, h.reader);
    var s := GetScanSection(buf, beyond, l.reader);
    var m := GetRemissionSection(buf, beyond, s.reader);
    Read(h.value.(landmarkDataValid := l.value.flag, landmark := l.value.content,
                  scanDataValid := s.value.flag, scanData := s.value.content,
                  remissionDataValid := m.value.flag, remission := m.value.content), m.reader)
  }

  /** The data set as a reader sees it: what a zero flag hides is reset, vectors hold what their counts say. */
  function Norm(n: NavData): NavData
    requires Writable(n)
  {
    NormHead(n).(
      landmarkDataValid := n.landmarkDataValid, landmark := NormLandmarkSection(n.landmarkDataValid, n.landmark),
      scanDataValid := n.scanDataValid, scanData := NormChannels(n.scanData[..n.scanDataValid]),
      remissionDataValid := n.remissionDataValid, remission := NormRemission(n.remissionDataValid, n.remission))
  }

  lemma GetPutBody(buf: seq<byte>, beyond: nat -> byte, r: Reader, n: NavData)
    requires Writable(n) && TagsOk(n) && At(buf, r.pos, Body(n))
    ensures GetBody(buf, beyond, r) == Read(Norm(n), Reader(r.pos + |Body(n)|, r.ok))
  {
    hide At, PutHead, GetHead, PutLandmarkSection, GetLandmarkSection, PutScanSection, GetScanSection,
         PutRemissionSection, GetRemissionSection;
    var h, l := PutHead(n), PutLandmarkSection(n.landmarkDataValid, n.landmark);
    var s, m := PutScanSection(n.scanDataValid, n.scanData), PutRemissionSection(n.remissionDataValid, n.remission);
    AtFour(buf, r.pos, h, l, s, m);
    GetPutHead(buf, r, n);
    var r1 := Reader(r.pos + |h|, r.ok);
    GetPutLandmarkSection(buf, r1, n.landmarkDataValid, n.landmark);
    var r2 := Reader(r1.pos + |l|, r.ok);
    GetPutScanSection(buf, beyond, r2, n.scanDataValid, n.scanData);
    var r3 := Reader(r2.pos + |s|, r.ok);
    GetPutRemissionSection(buf, beyond, r3, n.remissionDataValid, n.remission);
  }

  lemma PutGetBody(buf: seq<byte>, beyond: nat -> byte, r: Reader)
    requires GetBody(buf, beyond, r).reader.ok && GetBody(buf, beyond, r).reader.pos <= |buf|
    ensures var g := GetBody(buf, beyond, r);
            && r.ok && Writable(g.value) && TagsOk(g.value) && Norm(g.value) == g.value
            && At(buf, r.pos, Body(g.value)) && g.reader.pos == r.pos + |Body(g.value)|
  {
    hide At, PutHead, GetHead, PutLandmarkSection, GetLandmarkSection, PutScanSection, GetScanSection,
         PutRemissionSection, GetRemissionSection, NormLandmarkSection, NormRemission;
    var h := GetHead(buf, r);
    var l := GetLandmarkSection(buf, h.reader);
    var s := GetScanSection(buf, beyond, l.reader);
    var m := GetRemissionSection(buf, beyond, s.reader);
    var n := GetBody(buf, beyond, r).value;
    PutGetRemissionSection(buf, beyond, s.reader);
    PutGetScanSection(buf, beyond, l.reader);
    PutGetLandmarkSection(buf, h.reader);
    PutGetHead(buf, r);
    assert n.scanData[..n.scanDataValid] == n.scanData;
    SameHead(n, h.value);
    AtFour(buf, r.pos, PutHead(n), PutLandmarkSection(n.landmarkDataValid, n.landmark),
           PutScanSection(n.scanDataValid, n.scanData), PutRemissionSection(n.remissionDataValid, n.remission));
  }

  lemma SameHead(a: NavData, b: NavData)
    requires NormHead(a) == NormHead(b) && a.pose == b.pose
    ensures PutHead(a) == PutHead(b)
  {
    assert HeadWords(a) == HeadWords(b);
  }

  // ---- telegrams ----

  /** Magic word, payload size, command, data set, and a dummy checksum byte. */
  function Serialize(n: NavData): seq<byte>
    requires Writable(n)
  {
    var payload := COMMAND + Body(n);
    STX_WORD + ToBe(|payload|, 4) + payload + [0]
  }

  datatype Parsed = Parsed(success: bool, nav: NavData)

  /** The header is accepted: magic word, a size the telegram covers, the command. */
  predicate HeaderOk(buf: seq<byte>) {
    && |buf| >= COMMAND_LENGTH + 9 && buf[..4] == STX_WORD
    && SizeOk(Be(buf[4..8]), |buf|)
    && buf[HEADER_LENGTH..HEADER_LENGTH + COMMAND_LENGTH] == COMMAND
  }

  /** The payload size is converted to a signed number before it is compared. */
  predicate SizeOk(size: nat, length: nat) {
    (if size < INT_RANGE then size else size - 2 * INT_RANGE) + 9 <= length
  }

  function Parse(buf: seq<byte>, beyond: nat -> byte): Parsed {
    if HeaderOk(buf) then
      var g := GetBody(buf, beyond, Reader(HEADER_LENGTH + COMMAND_LENGTH, true));
      Parsed(g.reader.ok, g.value)
    else Parsed(false, NoNavData)
  }

  lemma TelegramSlices(size: seq<byte>, body: seq<byte>)
    requires |size| == 4
    ensures var buf := STX_WORD + size + (COMMAND + body) + [0];
            && |buf| == |body| + COMMAND_LENGTH + 9
            && buf[..4] == STX_WORD && buf[4..8] == size
            && buf[HEADER_LENGTH..HEADER_LENGTH + COMMAND_LENGTH] == COMMAND
            && At(buf, HEADER_LENGTH + COMMAND_LENGTH, body)
  {
    var buf := STX_WORD + size + (COMMAND + body) + [0];
    assert buf[8..8 + COMMAND_LENGTH + |body|] == COMMAND + body;
  }

  lemma SerializedHeader(n: NavData)
    requires Writable(n) && |Serialize(n)| < INT_RANGE
    ensures HeaderOk(Serialize(n)) && At(Serialize(n), HEADER_LENGTH + COMMAND_LENGTH, Body(n))
  {
    hide Body;
    var payload := COMMAND + Body(n);
    TelegramSlices(ToBe(|payload|, 4), Body(n));
    assert Pow256(4) == 0x1_0000_0000;
    BeToBe(|payload|, 4);
  }

  lemma ParsedTags(buf: seq<byte>, beyond: nat -> byte, r: Reader)
    ensures var n := GetBody(buf, beyond, r).value;
            |n.scanData| == n.scanDataValid && TagsOk(n)
  {
  }

  /**
   The round trip: for every data set whose counts fit its vectors, parsing the serialised telegram
   succeeds and returns the data set as a reader sees it, exactly if all written tags have five bytes.
   */
  lemma RoundTrip(n: NavData, beyond: nat -> byte)
    requires Writable(n) && |Serialize(n)| < INT_RANGE
    ensures Parse(Serialize(n), beyond) == Parsed(true, Norm(n)) <==> TagsOk(n)
  {
    hide GetBody, Body;
    SerializedHeader(n);
    var r := Reader(HEADER_LENGTH + COMMAND_LENGTH, true);
    if TagsOk(n) {
      GetPutBody(Serialize(n), beyond, r, n);
    } else {
      ParsedTags(Serialize(n), beyond, r);
      NormKeepsTags(n);
    }
  }

  lemma NormKeepsTags(n: NavData)
    requires Writable(n)
    ensures Norm(n).scanDataValid == n.scanDataValid == |Norm(n).scanData|
    ensures TagsOk(Norm(n)) <==> TagsOk(n)
  {
    var m := Norm(n);
    forall i | 0 <= i < n.scanDataValid
      ensures m.scanData[i].contentType == n.scanData[i].contentType
    {
    }
  }

  lemma BodyWithin(buf: seq<byte>, beyond: nat -> byte, r: Reader)
    requires GetBody(buf, beyond, r).reader.ok
    ensures GetBody(buf, beyond, r).reader.pos <= |buf|
  {
  }

  lemma NormSections(n: NavData)
    requires Writable(n)
    ensures var l := NormLandmarkSection(n.landmarkDataValid, n.landmark);
            && (n.landmarkDataValid > 0 ==> l.numReflectors <= |l.reflectors|)
            && NormLandmarkSection(n.landmarkDataValid, l) == l
            && PutLandmarkSection(n.landmarkDataValid, l) == PutLandmarkSection(n.landmarkDataValid, n.landmark)
    ensures var c := NormRemission(n.remissionDataValid, n.remission);
            && (n.remissionDataValid > 0 ==> ChannelOk(c, REMISSION_WIDTH))
            && NormRemission(n.remissionDataValid, c) == c
            && PutRemissionSection(n.remissionDataValid, c) == PutRemissionSection(n.remissionDataValid, n.remission)
  {
    hide Put, PutReflectors, NormReflectors, PutChannel;
    if n.landmarkDataValid > 0 {
      var fs := n.landmark.reflectors[..n.landmark.numReflectors];
      PutNormReflectors(fs);
      assert NormReflectors(fs)[..|fs|] == NormReflectors(fs);
    }
    if n.remissionDataValid > 0 {
      PutNormChannel(n.remission, REMISSION_WIDTH);
    }
  }

  lemma NormIdempotent(n: NavData)
    requires Writable(n)
    ensures Writable(Norm(n)) && Norm(Norm(n)) == Norm(n)
  {
    var cs := n.scanData[..n.scanDataValid];
    NormSections(n);
    PutNormChannels(cs, SCAN_WIDTH);
    hide Put, PutReflectors, NormReflectors, PutChannels, PutChannel;
    assert Norm(n).scanData[..n.scanDataValid] == NormChannels(cs);
    assert NormHead(Norm(n)) == NormHead(n);
  }

  lemma NormWritable(n: NavData)
    requires Writable(n)
    ensures Writable(Norm(n)) && Norm(Norm(n)) == Norm(n) && Body(Norm(n)) == Body(n)
  {
    var cs := n.scanData[..n.scanDataValid];
    NormIdempotent(n);
    NormSections(n);
    PutNormChannels(cs, SCAN_WIDTH);
    hide Put, PutReflectors, NormReflectors, PutChannels, PutChannel, NormLandmarkSection, PutLandmarkSection,
         PutRemissionSection, NormRemission, Writable;
    assert Norm(n).scanData[..n.scanDataValid] == NormChannels(cs);
    assert PutHead(Norm(n)) == PutHead(n);
  }

  /** What is reset is not written: the normalised data set has the same telegram. */
  lemma SerializeNorm(n: NavData)
    requires Writable(n)
    ensures Writable(Norm(n)) && Norm(Norm(n)) == Norm(n) && Serialize(Norm(n)) == Serialize(n)
  {
    hide Body, Norm;
    NormWritable(n);
  }

  /** Re-serialising what was parsed gives the identical telegram. */
  lemma ReserializeIdentical(n: NavData, beyond: nat -> byte)
    requires Writable(n) && TagsOk(n) && |Serialize(n)| < INT_RANGE
    ensures var p := Parse(Serialize(n), beyond);
            p.success && Writable(p.nav) && Serialize(p.nav) == Serialize(n)
  {
    RoundTrip(n, beyond);
    SerializeNorm(n);
  }

  /**
   Soundness of the parser: whatever telegram it accepts, the data set it returns is one a reader
   can see, and the accepted bytes behind the command are exactly its serialised form.
   */
  lemma ParseSound(buf: seq<byte>, beyond: nat -> byte)
    requires Parse(buf, beyond).success
    ensures var n := Parse(buf, beyond).nav;
            && Writable(n) && TagsOk(n) && Norm(n) == n
            && At(buf, HEADER_LENGTH + COMMAND_LENGTH, Body(n))
  {
    hide GetBody, Body, Norm;
    var r := Reader(HEADER_LENGTH + COMMAND_LENGTH, true);
    BodyWithin(buf, beyond, r);
    PutGetBody(buf, beyond, r);
  }
}
