/** NAV350 position telegrams in raw bytes: where the telegram has each field of the data set. */
module Nav350Layout {
  import opened Bytes
  import opened Fields
  import opened Nav350
  import opened Nav350Telegram

  // ---- records, by offset from their start ----

  predicate OptPoseStands(o: OptPose, buf: seq<byte>, pos: nat) {
    && Holds(buf, pos, 1, o.outputMode) && Holds(buf, pos + 1, 4, o.timestamp) && HoldsSigned(buf, pos + 5, o.meanDev)
    && Holds(buf, pos + 9, 1, o.navMode) && Holds(buf, pos + 10, 4, o.infoState)
    && Holds(buf, pos + 14, 1, o.quantUsedReflectors)
  }

  predicate PoseStands(p: Pose, buf: seq<byte>, pos: nat) {
    && HoldsSigned(buf, pos, p.x) && HoldsSigned(buf, pos + 4, p.y) && Holds(buf, pos + 8, 4, p.phi)
    && Holds(buf, pos + 12, 2, p.optPoseDataValid)
    && (p.optPoseDataValid > 0 ==> OptPoseStands(p.opt, buf, pos + 14))
  }

  function PoseLength(p: Pose): nat {
    14 + if p.optPoseDataValid > 0 then 15 else 0
  }

  lemma PoseHolds(p: Pose, buf: seq<byte>, pos: nat)
    requires At(buf, pos, PutPose(p))
    ensures PoseStands(p, buf, pos) && |PutPose(p)| == PoseLength(p)
  {
    hide Put, At, Holds, HoldsSigned;
    var vs, os := PoseWords(p), OptPoseWords(p.opt);
    AtConcat(buf, pos, Put(POSE_WIDTHS, vs), if p.optPoseDataValid > 0 then Put(OPT_POSE_WIDTHS, os) else []);
    var at := [0, 4, 8, 12, 14];
    PutHolds(buf, pos, POSE_WIDTHS, vs, at);
    assert at[1] == 4 && at[2] == 8 && at[3] == 12;
    WordHolds(buf, pos, p.x);
    WordHolds(buf, pos + 4, p.y);
    if p.optPoseDataValid > 0 {
      var off := [0, 1, 5, 9, 10, 14, 15];
      PutHolds(buf, pos + 14, OPT_POSE_WIDTHS, os, off);
      assert off[1] == 1 && off[2] == 5 && off[3] == 9 && off[4] == 10 && off[5] == 14;
      WordHolds(buf, pos + 14 + 5, p.opt.meanDev);
    }
  }

  predicate CartesianStands(c: Cartesian, buf: seq<byte>, pos: nat) {
    HoldsSigned(buf, pos, c.x) && HoldsSigned(buf, pos + 4, c.y)
  }

  predicate PolarStands(p: Polar, buf: seq<byte>, pos: nat) {
    Holds(buf, pos, 4, p.dist) && Holds(buf, pos + 4, 4, p.phi)
  }

  predicate OptReflectorStands(o: OptReflector, buf: seq<byte>, pos: nat) {
    && Holds(buf, pos, 2, o.localID) && Holds(buf, pos + 2, 2, o.globalID) && Holds(buf, pos + 4, 1, o.kind)
    && Holds(buf, pos + 5, 2, o.subType) && Holds(buf, pos + 7, 2, o.quality) && Holds(buf, pos + 9, 4, o.timestamp)
    && Holds(buf, pos + 13, 2, o.size) && Holds(buf, pos + 15, 2, o.hitCount) && Holds(buf, pos + 17, 2, o.meanEcho)
    && Holds(buf, pos + 19, 2, o.startIndex) && Holds(buf, pos + 21, 2, o.endIndex)
  }

  /** Three flags, each with its part behind it. */
  predicate ReflectorStands(f: Reflector, buf: seq<byte>, pos: nat) {
    var polar := pos + 2 + if f.cartesianDataValid > 0 then 8 else 0;
    var opt := polar + 2 + if f.polarDataValid > 0 then 8 else 0;
    && Holds(buf, pos, 2, f.cartesianDataValid)
    && (f.cartesianDataValid > 0 ==> CartesianStands(f.cartesian, buf, pos + 2))
    && Holds(buf, polar, 2, f.polarDataValid) && (f.polarDataValid > 0 ==> PolarStands(f.polar, buf, polar + 2))
    && Holds(buf, opt, 2, f.optReflectorDataValid)
    && (f.optReflectorDataValid > 0 ==> OptReflectorStands(f.opt, buf, opt + 2))
  }

  function ReflectorLength(f: Reflector): nat {
    6 + (if f.cartesianDataValid > 0 then 8 else 0) + (if f.polarDataValid > 0 then 8 else 0)
    + if f.optReflectorDataValid > 0 then 23 else 0
  }

  lemma FlagHolds(buf: seq<byte>, pos: nat, flag: u16)
    requires At(buf, pos, Put(FLAG_WIDTHS, [flag]))
    ensures Holds(buf, pos, 2, flag) && |Put(FLAG_WIDTHS, [flag])| == 2
  {
    hide Put, Holds;
    PutHolds(buf, pos, FLAG_WIDTHS, [flag], [0, 2]);
  }

  lemma OptionalHolds(buf: seq<byte>, pos: nat, flag: u16, ws: seq<width>, vs: seq<nat>, offsets: seq<nat>)
    requires Fits(ws, vs) && At(buf, pos, PutOptional(flag, ws, vs)) && Consecutive(ws, offsets)
    ensures Holds(buf, pos, 2, flag)
    ensures flag > 0 ==> forall i :: 0 <= i < |ws| ==> Holds(buf, pos + 2 + offsets[i], ws[i], vs[i])
    ensures |PutOptional(flag, ws, vs)| == 2 + if flag > 0 then offsets[|ws|] else 0
  {
    hide Put, Holds, At;
    AtConcat(buf, pos, Put(FLAG_WIDTHS, [flag]), if flag > 0 then Put(ws, vs) else []);
    FlagHolds(buf, pos, flag);
    if flag > 0 {
      PutHolds(buf, pos + 2, ws, vs, offsets);
    }
  }

  lemma CartesianHolds(buf: seq<byte>, pos: nat, flag: u16, c: Cartesian)
    requires At(buf, pos, PutOptional(flag, CARTESIAN_WIDTHS, CartesianWords(c)))
    ensures Holds(buf, pos, 2, flag) && (flag > 0 ==> CartesianStands(c, buf, pos + 2))
    ensures |PutOptional(flag, CARTESIAN_WIDTHS, CartesianWords(c))| == 2 + if flag > 0 then 8 else 0
  {
    hide Put, Holds, HoldsSigned, At, PutOptional;
    var off := [0, 4, 8];
    OptionalHolds(buf, pos, flag, CARTESIAN_WIDTHS, CartesianWords(c), off);
    if flag > 0 {
      assert off[1] == 4;
      WordHolds(buf, pos + 2, c.x);
      WordHolds(buf, pos + 6, c.y);
    }
  }

  lemma PolarHolds(buf: seq<byte>, pos: nat, flag: u16, p: Polar)
    requires At(buf, pos, PutOptional(flag, POLAR_WIDTHS, PolarWords(p)))
    ensures Holds(buf, pos, 2, flag) && (flag > 0 ==> PolarStands(p, buf, pos + 2))
    ensures |PutOptional(flag, POLAR_WIDTHS, PolarWords(p))| == 2 + if flag > 0 then 8 else 0
  {
    hide Put, Holds, At, PutOptional;
    var off := [0, 4, 8];
    OptionalHolds(buf, pos, flag, POLAR_WIDTHS, PolarWords(p), off);
    assert off[1] == 4;
  }

  lemma OptReflectorHolds(buf: seq<byte>, pos: nat, flag: u16, o: OptReflector)
    requires At(buf, pos, PutOptional(flag, OPT_REFLECTOR_WIDTHS, OptReflectorWords(o)))
    ensures Holds(buf, pos, 2, flag) && (flag > 0 ==> OptReflectorStands(o, buf, pos + 2))
    ensures |PutOptional(flag, OPT_REFLECTOR_WIDTHS, OptReflectorWords(o))| == 2 + if flag > 0 then 23 else 0
  {
    hide Put, Holds, At, PutOptional;
    var off := [0, 2, 4, 5, 7, 9, 13, 15, 17, 19, 21, 23];
    OptionalHolds(buf, pos, flag, OPT_REFLECTOR_WIDTHS, OptReflectorWords(o), off);
    assert off[1] == 2 && off[2] == 4 && off[3] == 5 && off[4] == 7 && off[5] == 9 && off[6] == 13;
    assert off[7] == 15 && off[8] == 17 && off[9] == 19 && off[10] == 21;
  }

  lemma ReflectorHolds(f: Reflector, buf: seq<byte>, pos: nat)
    requires At(buf, pos, PutReflector(f))
    ensures ReflectorStands(f, buf, pos) && |PutReflector(f)| == ReflectorLength(f)
  {
    hide Put, Holds, At, PutOptional, CartesianStands, PolarStands, OptReflectorStands;
    var c := PutOptional(f.cartesianDataValid, CARTESIAN_WIDTHS, CartesianWords(f.cartesian));
    var p := PutOptional(f.polarDataValid, POLAR_WIDTHS, PolarWords(f.polar));
    var o := PutOptional(f.optReflectorDataValid, OPT_REFLECTOR_WIDTHS, OptReflectorWords(f.opt));
    AtThree(buf, pos, c, p, o);
    CartesianHolds(buf, pos, f.cartesianDataValid, f.cartesian);
    PolarHolds(buf, pos + |c|, f.polarDataValid, f.polar);
    OptReflectorHolds(buf, pos + |c| + |p|, f.optReflectorDataValid, f.opt);
  }

  function ReflectorsLength(fs: seq<Reflector>): nat {
    if fs == [] then 0 else ReflectorsLength(fs[..|fs| - 1]) + ReflectorLength(fs[|fs| - 1])
  }

  lemma {:induction false} ReflectorsHold(fs: seq<Reflector>, buf: seq<byte>, pos: nat)
    requires At(buf, pos, PutReflectors(fs))
    ensures forall i :: 0 <= i < |fs| ==> ReflectorStands(fs[i], buf, pos + ReflectorsLength(fs[..i]))
    ensures |PutReflectors(fs)| == ReflectorsLength(fs)
  {
    hide At, PutReflector, ReflectorStands, ReflectorLength;
    if fs != [] {
      var front, last := fs[..|fs| - 1], fs[|fs| - 1];
      AtConcat(buf, pos, PutReflectors(front), PutReflector(last));
      ReflectorsHold(front, buf, pos);
      ReflectorHolds(last, buf, pos + ReflectorsLength(front));
      forall i | 0 <= i < |front|
        ensures ReflectorStands(fs[i], buf, pos + ReflectorsLength(fs[..i]))
      {
        assert front[..i] == fs[..i];
      }
    }
  }

  /** Tag, six fields, and data of w bytes each. */
  predicate ChannelStands(c: Channel, w: width, buf: seq<byte>, pos: nat) {
    && pos + 25 <= |buf| && buf[pos..pos + 5] == c.contentType
    && Holds(buf, pos + 5, 4, c.scaleFactor) && Holds(buf, pos + 9, 4, c.scaleOffset)
    && HoldsSigned(buf, pos + 13, c.startAngle) && Holds(buf, pos + 17, 2, c.angleRes)
    && Holds(buf, pos + 19, 4, c.timestampStart) && Holds(buf, pos + 23, 2, c.numData)
    && c.numData <= |c.data|
    && forall i: nat :: i < c.numData ==> Holds(buf, pos + 25 + Offset(w, i), w, c.data[i])
  }

  function Offset(w: width, i: nat): nat {
    if w == 1 then i else if w == 2 then 2 * i else 4 * i
  }

  lemma DataHolds(w: width, data: seq<nat>, buf: seq<byte>, pos: nat)
    requires At(buf, pos, PutData(w, data)) && forall i :: 0 <= i < |data| ==> data[i] < Limit(w)
    ensures |PutData(w, data)| == Offset(w, |data|)
    ensures forall i: nat :: i < |data| ==> Holds(buf, pos + Offset(w, i), w, data[i])
  {
    hide Put, At, Holds;
    var offsets := seq(|data| + 1, i requires 0 <= i => Offset(w, i));
    PutHolds(buf, pos, Repeat(w, |data|), data, offsets);
    forall i: nat | i < |data|
      ensures Holds(buf, pos + Offset(w, i), w, data[i])
    {
      assert Holds(buf, pos + offsets[i], Repeat(w, |data|)[i], data[i]);
    }
  }

  lemma ChannelHolds(c: Channel, w: width, buf: seq<byte>, pos: nat)
    requires ChannelOk(c, w) && |c.contentType| == TAG_LENGTH && At(buf, pos, PutChannel(c, w))
    ensures ChannelStands(c, w, buf, pos) && |PutChannel(c, w)| == 25 + Offset(w, c.numData)
  {
    hide Put, At, Holds, HoldsSigned, PutData;
    var vs, data := ChannelWords(c), c.data[..c.numData];
    AtThree(buf, pos, c.contentType, Put(CHANNEL_WIDTHS, vs), PutData(w, data));
    AtSlice(buf, pos, c.contentType);
    var off := [0, 4, 8, 12, 14, 18, 20];
    PutHolds(buf, pos + 5, CHANNEL_WIDTHS, vs, off);
    assert off[1] == 4 && off[2] == 8 && off[3] == 12 && off[4] == 14 && off[5] == 18;
    WordHolds(buf, pos + 13, c.startAngle);
    AtSlice(buf, pos + 5, Put(CHANNEL_WIDTHS, vs));
    DataHolds(w, data, buf, pos + 25);
  }

  function ChannelsLength(cs: seq<Channel>, w: width): nat {
    if cs == [] then 0 else ChannelsLength(cs[..|cs| - 1], w) + 25 + Offset(w, cs[|cs| - 1].numData)
  }

  lemma ChannelsSplit(front: seq<Channel>, last: Channel, w: width, buf: seq<byte>, pos: nat)
    requires ChannelsOk(front + [last], w) && Tagged(front + [last]) && At(buf, pos, PutChannels(front + [last], w))
    ensures ChannelsOk(front, w) && Tagged(front) && ChannelOk(last, w) && |last.contentType| == TAG_LENGTH
    ensures At(buf, pos, PutChannels(front, w)) && At(buf, pos + |PutChannels(front, w)|, PutChannel(last, w))
    ensures |PutChannels(front + [last], w)| == |PutChannels(front, w)| + |PutChannel(last, w)|
  {
    hide At, PutChannel;
    var cs := front + [last];
    assert cs[..|cs| - 1] == front && cs[|cs| - 1] == last;
    assert forall i :: 0 <= i < |front| ==> cs[i] == front[i];
    AtConcat(buf, pos, PutChannels(front, w), PutChannel(last, w));
  }

  /** One channel behind the other. */
  predicate ChannelsStand(cs: seq<Channel>, w: width, buf: seq<byte>, pos: nat) {
    cs == []
    || (&& ChannelsStand(cs[..|cs| - 1], w, buf, pos)
        && ChannelStands(cs[|cs| - 1], w, buf, pos + ChannelsLength(cs[..|cs| - 1], w)))
  }

  lemma {:induction false} ChannelsHold(cs: seq<Channel>, w: width, buf: seq<byte>, pos: nat)
    requires ChannelsOk(cs, w) && Tagged(cs) && At(buf, pos, PutChannels(cs, w))
    ensures ChannelsStand(cs, w, buf, pos) && |PutChannels(cs, w)| == ChannelsLength(cs, w)
  {
    hide At, PutChannel, ChannelStands, Offset, ChannelOk, Tagged;
    if cs != [] {
      var front, last := cs[..|cs| - 1], cs[|cs| - 1];
      assert front + [last] == cs;
      ChannelsSplit(front, last, w, buf, pos);
      ChannelsHold(front, w, buf, pos);
      ChannelHolds(last, w, buf, pos + ChannelsLength(front, w));
    }
  }

  // ---- the whole telegram ----

  function PosePartLength(n: NavData): nat {
    if n.poseDataValid > 0 then PoseLength(n.pose) else 0
  }

  function LandmarkPartLength(n: NavData): nat
    requires n.landmark.numReflectors <= |n.landmark.reflectors| || n.landmarkDataValid == 0
  {
    2 + if n.landmarkDataValid > 0 then 3 + ReflectorsLength(n.landmark.reflectors[..n.landmark.numReflectors]) else 0
  }

  /** Behind the command: the status fields and the pose. */
  predicate HeadStands(n: NavData, buf: seq<byte>) {
    && Holds(buf, 25, 2, n.version) && Holds(buf, 27, 1, n.errorCode) && Holds(buf, 28, 1, n.wait)
    && Holds(buf, 29, 1, n.mask) && Holds(buf, 30, 2, n.poseDataValid)
    && (n.poseDataValid > 0 ==> PoseStands(n.pose, buf, 32))
  }

  /** Flag, filter, number, and that many reflectors, one behind the other. */
  predicate LandmarksStand(n: NavData, buf: seq<byte>, pos: nat) {
    && Holds(buf, pos, 2, n.landmarkDataValid)
    && (n.landmarkDataValid > 0 ==>
          && Holds(buf, pos + 2, 1, n.landmark.landmarkFilter) && Holds(buf, pos + 3, 2, n.landmark.numReflectors)
          && n.landmark.numReflectors <= |n.landmark.reflectors|
          && forall i :: 0 <= i < n.landmark.numReflectors ==>
               ReflectorStands(n.landmark.reflectors[i], buf, pos + 5 + ReflectorsLength(n.landmark.reflectors[..i])))
  }

  /** Scan channels of four bytes per value, then the remission channel of two. */
  predicate ScanStands(n: NavData, buf: seq<byte>, pos: nat) {
    && n.scanDataValid <= |n.scanData| && Holds(buf, pos, 2, n.scanDataValid)
    && ChannelsStand(n.scanData[..n.scanDataValid], 4, buf, pos + 2)
    && var remission := pos + 2 + ChannelsLength(n.scanData[..n.scanDataValid], 4);
       && Holds(buf, remission, 2, n.remissionDataValid)
       && (n.remissionDataValid > 0 ==> ChannelStands(n.remission, 2, buf, remission + 2))
  }

  ghost predicate LayoutStands(n: NavData, buf: seq<byte>)
    requires Writable(n)
  {
    && HeadStands(n, buf)
    && LandmarksStand(n, buf, 32 + PosePartLength(n))
    && ScanStands(n, buf, 32 + PosePartLength(n) + LandmarkPartLength(n))
  }

  lemma HeadHolds(n: NavData, buf: seq<byte>)
    requires At(buf, 25, PutHead(n))
    ensures HeadStands(n, buf) && |PutHead(n)| == 7 + PosePartLength(n)
  {
    hide Put, At, Holds, PutPose, PoseStands, PoseLength;
    AtConcat(buf, 25, Put(HEAD_WIDTHS, HeadWords(n)), if n.poseDataValid > 0 then PutPose(n.pose) else []);
    var off := [0, 2, 3, 4, 5, 7];
    PutHolds(buf, 25, HEAD_WIDTHS, HeadWords(n), off);
    assert off[1] == 2 && off[2] == 3 && off[3] == 4 && off[4] == 5;
    if n.poseDataValid > 0 {
      PoseHolds(n.pose, buf, 32);
    }
  }

  lemma LandmarksHold(n: NavData, buf: seq<byte>, pos: nat)
    requires n.landmarkDataValid > 0 ==> n.landmark.numReflectors <= |n.landmark.reflectors|
    requires At(buf, pos, PutLandmarkSection(n.landmarkDataValid, n.landmark))
    ensures LandmarksStand(n, buf, pos)
    ensures |PutLandmarkSection(n.landmarkDataValid, n.landmark)| == LandmarkPartLength(n)
  {
    hide Put, At, Holds, PutReflectors, ReflectorStands, ReflectorsLength;
    var l := n.landmark;
    AtConcat(buf, pos, Put(FLAG_WIDTHS, [n.landmarkDataValid]), if n.landmarkDataValid > 0 then PutLandmark(l) else []);
    FlagHolds(buf, pos, n.landmarkDataValid);
    if n.landmarkDataValid > 0 {
      var fs := l.reflectors[..l.numReflectors];
      AtConcat(buf, pos + 2, Put(LANDMARK_WIDTHS, LandmarkWords(l)), PutReflectors(fs));
      var off := [0, 1, 3];
      PutHolds(buf, pos + 2, LANDMARK_WIDTHS, LandmarkWords(l), off);
      assert off[1] == 1;
      ReflectorsHold(fs, buf, pos + 5);
      forall i | 0 <= i < l.numReflectors
        ensures ReflectorStands(l.reflectors[i], buf, pos + 5 + ReflectorsLength(l.reflectors[..i]))
      {
        assert fs[..i] == l.reflectors[..i] && fs[i] == l.reflectors[i];
      }
    }
  }

  lemma ScanHolds(n: NavData, buf: seq<byte>, pos: nat)
    requires Writable(n) && TagsOk(n)
    requires At(buf, pos, PutScanSection(n.scanDataValid, n.scanData))
    requires At(buf, pos + |PutScanSection(n.scanDataValid, n.scanData)|,
                PutRemissionSection(n.remissionDataValid, n.remission))
    ensures ScanStands(n, buf, pos)
  {
    hide Put, At, Holds, PutChannels, PutChannel, ChannelStands, ChannelsStand, ChannelsLength;
    var cs := n.scanData[..n.scanDataValid];
    AtConcat(buf, pos, Put(FLAG_WIDTHS, [n.scanDataValid]), PutChannels(cs, SCAN_WIDTH));
    FlagHolds(buf, pos, n.scanDataValid);
    ChannelsHold(cs, SCAN_WIDTH, buf, pos + 2);
    var m := pos + 2 + ChannelsLength(cs, SCAN_WIDTH);
    AtConcat(buf, m, Put(FLAG_WIDTHS, [n.remissionDataValid]),
             if n.remissionDataValid > 0 then PutChannel(n.remission, REMISSION_WIDTH) else []);
    FlagHolds(buf, m, n.remissionDataValid);
    if n.remissionDataValid > 0 {
      ChannelHolds(n.remission, REMISSION_WIDTH, buf, m + 2);
    }
  }

  /** The serialised data set has every field where the layout says. */
  lemma BodyStands(n: NavData, buf: seq<byte>)
    requires Writable(n) && TagsOk(n) && At(buf, 25, Body(n))
    ensures LayoutStands(n, buf)
  {
    hide At, PutHead, PutLandmarkSection, PutScanSection, PutRemissionSection, HeadStands, LandmarksStand, ScanStands,
         LandmarkPartLength, PosePartLength;
    var h, l := PutHead(n), PutLandmarkSection(n.landmarkDataValid, n.landmark);
    AtFour(buf, 25, h, l, PutScanSection(n.scanDataValid, n.scanData),
           PutRemissionSection(n.remissionDataValid, n.remission));
    HeadHolds(n, buf);
    LandmarksHold(n, buf, 25 + |h|);
    ScanHolds(n, buf, 25 + |h| + |l|);
  }

  /** Of every accepted telegram, whoever wrote it: the data set holds what the bytes say. */
  lemma AcceptedLayout(buf: seq<byte>, beyond: nat -> byte)
    requires Parse(buf, beyond).success
    ensures var n := Parse(buf, beyond).nav;
            && Writable(n) && TagsOk(n) && LayoutStands(n, buf)
            && n.landmark.numReflectors == |n.landmark.reflectors| && n.scanDataValid == |n.scanData|
  {
    hide Parse, Body, Norm, LayoutStands;
    ParseSound(buf, beyond);
    BodyStands(Parse(buf, beyond).nav, buf);
    NormCounts(Parse(buf, beyond).nav);
  }

  lemma NormCounts(n: NavData)
    requires Writable(n) && Norm(n) == n
    ensures n.landmark.numReflectors == |n.landmark.reflectors| && n.scanDataValid == |n.scanData|
  {
    assert n.landmark == NormLandmarkSection(n.landmarkDataValid, n.landmark);
    assert n.scanData == NormChannels(n.scanData[..n.scanDataValid]);
  }

  /** Of every telegram that is written: magic word, payload size, the command, and the bytes of the data set. */
  lemma WrittenLayout(n: NavData)
    requires Writable(n) && TagsOk(n) && |Serialize(n)| < INT_RANGE
    ensures var buf := Serialize(n);
            && buf[..4] == [2, 2, 2, 2] && Holds(buf, 4, 4, |buf| - 9)
            && buf[8..25] == COMMAND && LayoutStands(n, buf)
  {
    hide Body, LayoutStands;
    SerializedHeader(n);
    SerializedSize(n);
    BodyStands(n, Serialize(n));
  }

  lemma SerializedSize(n: NavData)
    requires Writable(n) && |Serialize(n)| < INT_RANGE
    ensures Holds(Serialize(n), 4, 4, |Serialize(n)| - 9)
  {
    hide Body;
    var payload := COMMAND + Body(n);
    TelegramSlices(ToBe(|payload|, 4), Body(n));
    assert Pow256(4) == 0x1_0000_0000;
    BeToBe(|payload|, 4);
  }
}
