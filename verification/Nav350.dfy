/**
 NAV350 position telegrams: the serialised form of a data set and its reading, as functions.
 Floats are carried as their 32-bit patterns.
 */
module Nav350 {
  import opened Bytes
  import opened Fields

  datatype OptPose = OptPose(outputMode: u8, timestamp: u32, meanDev: i32, navMode: u8, infoState: u32,
                             quantUsedReflectors: u8)

  datatype Pose = Pose(x: i32, y: i32, phi: u32, optPoseDataValid: u16, opt: OptPose)

  datatype Cartesian = Cartesian(x: i32, y: i32)

  datatype Polar = Polar(dist: u32, phi: u32)

  datatype OptReflector = OptReflector(
    localID: u16, globalID: u16, kind: u8, subType: u16, quality: u16, timestamp: u32,
    size: u16, hitCount: u16, meanEcho: u16, startIndex: u16, endIndex: u16)

  datatype Reflector = Reflector(
    cartesianDataValid: u16, cartesian: Cartesian,
    polarDataValid: u16, polar: Polar,
    optReflectorDataValid: u16, opt: OptReflector)

  datatype Landmark = Landmark(landmarkFilter: u8, numReflectors: u16, reflectors: seq<Reflector>)

  /** A scan channel (32-bit data) or the remission channel (16-bit data). */
  datatype Channel = Channel(
    contentType: seq<byte>, scaleFactor: u32, scaleOffset: u32, startAngle: i32, angleRes: u16,
    timestampStart: u32, numData: u16, data: seq<nat>)

  datatype NavData = NavData(
    version: u16, errorCode: u8, wait: u8, mask: u8,
    poseDataValid: u16, pose: Pose,
    landmarkDataValid: u16, landmark: Landmark,
    scanDataValid: u16, scanData: seq<Channel>,
    remissionDataValid: u16, remission: Channel)

  const SCAN_WIDTH: width := 4
  const REMISSION_WIDTH: width := 2
  const TAG_LENGTH: nat := 5

  const NoOptPose := OptPose(0, 0, 0, 0, 0, 0)
  const NoPose := Pose(0, 0, 0, 0, NoOptPose)
  const NoCartesian := Cartesian(0, 0)
  const NoPolar := Polar(0, 0)
  const NoOptReflector := OptReflector(0, 0, 0, 0, 0, 0, 0, 0, 0, 0, 0)
  const NoLandmark := Landmark(0, 0, [])
  const NoChannel := Channel([], 0, 0, 0, 0, 0, 0, [])
  const NoNavData := NavData(0, 0, 0, 0, 0, NoPose, 0, NoLandmark, 0, [], 0, NoChannel)

  // ---- records as runs of fields ----

  const OPT_POSE_WIDTHS: seq<width> := [1, 4, 4, 1, 4, 1]
  const POSE_WIDTHS: seq<width> := [4, 4, 4, 2]
  const CARTESIAN_WIDTHS: seq<width> := [4, 4]
  const POLAR_WIDTHS: seq<width> := [4, 4]
  const OPT_REFLECTOR_WIDTHS: seq<width> := [2, 2, 1, 2, 2, 4, 2, 2, 2, 2, 2]
  const LANDMARK_WIDTHS: seq<width> := [1, 2]
  const CHANNEL_WIDTHS: seq<width> := [4, 4, 4, 2, 4, 2]
  const HEAD_WIDTHS: seq<width> := [2, 1, 1, 1, 2]

  function OptPoseWords(o: OptPose): (vs: seq<nat>)
    ensures Fits(OPT_POSE_WIDTHS, vs)
  {
    [o.outputMode, o.timestamp, Word(o.meanDev), o.navMode, o.infoState, o.quantUsedReflectors]
  }

  function OptPoseOf(vs: seq<nat>): (o: OptPose)
    requires Fits(OPT_POSE_WIDTHS, vs)
    ensures OptPoseWords(o) == vs
  {
    OptPose(vs[0], vs[1], Signed(vs[2]), vs[3], vs[4], vs[5])
  }

  function PoseWords(p: Pose): (vs: seq<nat>)
    ensures Fits(POSE_WIDTHS, vs)
  {
    [Word(p.x), Word(p.y), p.phi, p.optPoseDataValid]
  }

  function PoseOf(vs: seq<nat>, opt: OptPose): (p: Pose)
    requires Fits(POSE_WIDTHS, vs)
    ensures PoseWords(p) == vs && p.opt == opt
  {
    Pose(Signed(vs[0]), Signed(vs[1]), vs[2], vs[3], opt)
  }

  function CartesianWords(c: Cartesian): (vs: seq<nat>)
    ensures Fits(CARTESIAN_WIDTHS, vs)
  {
    [Word(c.x), Word(c.y)]
  }

  function CartesianOf(vs: seq<nat>): (c: Cartesian)
    requires Fits(CARTESIAN_WIDTHS, vs)
    ensures CartesianWords(c) == vs
  {
    Cartesian(Signed(vs[0]), Signed(vs[1]))
  }

  function PolarWords(p: Polar): (vs: seq<nat>)
    ensures Fits(POLAR_WIDTHS, vs)
  {
    [p.dist, p.phi]
  }

  function PolarOf(vs: seq<nat>): (p: Polar)
    requires Fits(POLAR_WIDTHS, vs)
    ensures PolarWords(p) == vs
  {
    Polar(vs[0], vs[1])
  }

  function OptReflectorWords(o: OptReflector): (vs: seq<nat>)
    ensures Fits(OPT_REFLECTOR_WIDTHS, vs)
  {
    [o.localID, o.globalID, o.kind, o.subType, o.quality, o.timestamp,
     o.size, o.hitCount, o.meanEcho, o.startIndex, o.endIndex]
  }

  function OptReflectorOf(vs: seq<nat>): (o: OptReflector)
    requires Fits(OPT_REFLECTOR_WIDTHS, vs)
    ensures OptReflectorWords(o) == vs
  {
    OptReflector(vs[0], vs[1], vs[2], vs[3], vs[4], vs[5], vs[6], vs[7], vs[8], vs[9], vs[10])
  }

  function ChannelWords(c: Channel): (vs: seq<nat>)
    ensures Fits(CHANNEL_WIDTHS, vs)
  {
    [c.scaleFactor, c.scaleOffset, Word(c.startAngle), c.angleRes, c.timestampStart, c.numData]
  }

  function ChannelOf(tag: seq<byte>, vs: seq<nat>, data: seq<nat>): (c: Channel)
    requires Fits(CHANNEL_WIDTHS, vs)
    ensures ChannelWords(c) == vs && c.contentType == tag && c.data == data && c.numData == vs[5]
  {
    Channel(tag, vs[0], vs[1], Signed(vs[2]), vs[3], vs[4], vs[5], data)
  }

  function HeadWords(n: NavData): (vs: seq<nat>)
    ensures Fits(HEAD_WIDTHS, vs)
  {
    [n.version, n.errorCode, n.wait, n.mask, n.poseDataValid]
  }

  function Repeat(w: width, n: nat): seq<width> {
    seq(n, _ => w)
  }

  // ---- pose ----

  function PutPose(p: Pose): seq<byte> {
    Put(POSE_WIDTHS, PoseWords(p))
    + if p.optPoseDataValid > 0 then Put(OPT_POSE_WIDTHS, OptPoseWords(p.opt)) else []
  }

  function GetPose(buf: seq<byte>, r: Reader): Read<Pose> {
    GetFits(buf, r, POSE_WIDTHS);
    var g := Get(buf, r, POSE_WIDTHS);
    var p := PoseOf(g.value, NoOptPose);
    if p.optPoseDataValid > 0 then
      GetFits(buf, g.reader, OPT_POSE_WIDTHS);
      var o := Get(buf, g.reader, OPT_POSE_WIDTHS);
      Read(p.(opt := OptPoseOf(o.value)), o.reader)
    else Read(p, g.reader)
  }

  /** Fields behind a zero validity flag take their defaults. */
  function NormPose(p: Pose): Pose {
    if p.optPoseDataValid > 0 then p else p.(opt := NoOptPose)
  }

  lemma GetPutPose(buf: seq<byte>, r: Reader, p: Pose)
    requires At(buf, r.pos, PutPose(p))
    ensures GetPose(buf, r) == Read(NormPose(p), Reader(r.pos + |PutPose(p)|, r.ok))
  {
    hide Put, Get, At;
    var opt := if p.optPoseDataValid > 0 then Put(OPT_POSE_WIDTHS, OptPoseWords(p.opt)) else [];
    AtConcat(buf, r.pos, Put(POSE_WIDTHS, PoseWords(p)), opt);
    GetPut(buf, r, POSE_WIDTHS, PoseWords(p));
    if p.optPoseDataValid > 0 {
      GetPut(buf, Get(buf, r, POSE_WIDTHS).reader, OPT_POSE_WIDTHS, OptPoseWords(p.opt));
    }
  }

  lemma PutGetPose(buf: seq<byte>, r: Reader)
    requires GetPose(buf, r).reader.ok && GetPose(buf, r).reader.pos <= |buf|
    ensures var g := GetPose(buf, r);
            && r.ok && NormPose(g.value) == g.value
            && At(buf, r.pos, PutPose(g.value)) && g.reader.pos == r.pos + |PutPose(g.value)|
  {
    var head := Get(buf, r, POSE_WIDTHS);
    var p := GetPose(buf, r).value;
    GetFits(buf, r, POSE_WIDTHS);
    GetFits(buf, head.reader, OPT_POSE_WIDTHS);
    PutGet(buf, r, POSE_WIDTHS);
    if p.optPoseDataValid > 0 {
      PutGet(buf, head.reader, OPT_POSE_WIDTHS);
      AtConcat(buf, r.pos, Put(POSE_WIDTHS, head.value), Put(OPT_POSE_WIDTHS, OptPoseWords(p.opt)));
    } else {
      assert Put(POSE_WIDTHS, head.value) + [] == Put(POSE_WIDTHS, head.value);
    }
  }

  // ---- reflectors ----

  function PutReflector(f: Reflector): seq<byte> {
    PutOptional(f.cartesianDataValid, CARTESIAN_WIDTHS, CartesianWords(f.cartesian))
    + PutOptional(f.polarDataValid, POLAR_WIDTHS, PolarWords(f.polar))
    + PutOptional(f.optReflectorDataValid, OPT_REFLECTOR_WIDTHS, OptReflectorWords(f.opt))
  }

  function GetReflector(buf: seq<byte>, r: Reader): Read<Reflector> {
    GetOptionalFits(buf, r, CARTESIAN_WIDTHS);
    var c := GetOptional(buf, r, CARTESIAN_WIDTHS);
    GetOptionalFits(buf, c.reader, POLAR_WIDTHS);
    var p := GetOptional(buf, c.reader, POLAR_WIDTHS);
    GetOptionalFits(buf, p.reader, OPT_REFLECTOR_WIDTHS);
    var o := GetOptional(buf, p.reader, OPT_REFLECTOR_WIDTHS);
    Read(Reflector(c.value.flag, CartesianOf(c.value.words), p.value.flag, PolarOf(p.value.words),
                   o.value.flag, OptReflectorOf(o.value.words)), o.reader)
  }

  function NormReflector(f: Reflector): Reflector {
    f.(cartesian := if f.cartesianDataValid > 0 then f.cartesian else NoCartesian,
       polar := if f.polarDataValid > 0 then f.polar else NoPolar,
       opt := if f.optReflectorDataValid > 0 then f.opt else NoOptReflector)
  }

  lemma GetPutReflector(buf: seq<byte>, r: Reader, f: Reflector)
    requires At(buf, r.pos, PutReflector(f))
    ensures GetReflector(buf, r) == Read(NormReflector(f), Reader(r.pos + |PutReflector(f)|, r.ok))
  {
    hide Put, PutOptional, GetOptional, At;
    var c := PutOptional(f.cartesianDataValid, CARTESIAN_WIDTHS, CartesianWords(f.cartesian));
    var p := PutOptional(f.polarDataValid, POLAR_WIDTHS, PolarWords(f.polar));
    var o := PutOptional(f.optReflectorDataValid, OPT_REFLECTOR_WIDTHS, OptReflectorWords(f.opt));
    AtConcat(buf, r.pos, c + p, o);
    AtConcat(buf, r.pos, c, p);
    GetPutOptional(buf, r, f.cartesianDataValid, CARTESIAN_WIDTHS, CartesianWords(f.cartesian));
    var r1 := Reader(r.pos + |c|, r.ok);
    GetPutOptional(buf, r1, f.polarDataValid, POLAR_WIDTHS, PolarWords(f.polar));
    var r2 := Reader(r1.pos + |p|, r.ok);
    GetPutOptional(buf, r2, f.optReflectorDataValid, OPT_REFLECTOR_WIDTHS, OptReflectorWords(f.opt));
  }

  lemma PutGetReflector(buf: seq<byte>, r: Reader)
    requires GetReflector(buf, r).reader.ok && GetReflector(buf, r).reader.pos <= |buf|
    ensures var g := GetReflector(buf, r);
            && r.ok && NormReflector(g.value) == g.value
            && At(buf, r.pos, PutReflector(g.value)) && g.reader.pos == r.pos + |PutReflector(g.value)|
  {
    hide Put, PutOptional, GetOptional, At;
    var c := GetOptional(buf, r, CARTESIAN_WIDTHS);
    var p := GetOptional(buf, c.reader, POLAR_WIDTHS);
    var o := GetOptional(buf, p.reader, OPT_REFLECTOR_WIDTHS);
    GetOptionalFits(buf, r, CARTESIAN_WIDTHS);
    GetOptionalFits(buf, c.reader, POLAR_WIDTHS);
    GetOptionalFits(buf, p.reader, OPT_REFLECTOR_WIDTHS);
    PutGetOptional(buf, r, CARTESIAN_WIDTHS);
    PutGetOptional(buf, c.reader, POLAR_WIDTHS);
    PutGetOptional(buf, p.reader, OPT_REFLECTOR_WIDTHS);
    var cb := PutOptional(c.value.flag, CARTESIAN_WIDTHS, c.value.words);
    var pb := PutOptional(p.value.flag, POLAR_WIDTHS, p.value.words);
    var ob := PutOptional(o.value.flag, OPT_REFLECTOR_WIDTHS, o.value.words);
    AtConcat(buf, r.pos, cb, pb);
    AtConcat(buf, r.pos, cb + pb, ob);
  }

  function PutReflectors(fs: seq<Reflector>): seq<byte> {
    if fs == [] then [] else PutReflectors(fs[..|fs| - 1]) + PutReflector(fs[|fs| - 1])
  }

  function GetReflectors(buf: seq<byte>, r: Reader, n: nat): (g: Read<seq<Reflector>>)
    ensures |g.value| == n
  {
    if n == 0 then Read([], r)
    else
      var front := GetReflectors(buf, r, n - 1);
      var last := GetReflector(buf, front.reader);
      Read(front.value + [last.value], last.reader)
  }

  function NormReflectors(fs: seq<Reflector>): (ns: seq<Reflector>)
    ensures |ns| == |fs|
  {
    seq(|fs|, i requires 0 <= i < |fs| => NormReflector(fs[i]))
  }

  lemma {:induction false} GetPutReflectors(buf: seq<byte>, r: Reader, fs: seq<Reflector>)
    requires At(buf, r.pos, PutReflectors(fs))
    ensures GetReflectors(buf, r, |fs|) == Read(NormReflectors(fs), Reader(r.pos + |PutReflectors(fs)|, r.ok))
  {
    hide PutReflector, GetReflector, NormReflector, At;
    if fs != [] {
      var front, last := fs[..|fs| - 1], fs[|fs| - 1];
      AtConcat(buf, r.pos, PutReflectors(front), PutReflector(last));
      GetPutReflectors(buf, r, front);
      GetPutReflector(buf, GetReflectors(buf, r, |front|).reader, last);
      assert NormReflectors(fs) == NormReflectors(front) + [NormReflector(last)];
    }
  }

  lemma {:induction false} PutGetReflectors(buf: seq<byte>, r: Reader, n: nat)
    requires GetReflectors(buf, r, n).reader.ok && GetReflectors(buf, r, n).reader.pos <= |buf|
    ensures var g := GetReflectors(buf, r, n);
            && r.ok && NormReflectors(g.value) == g.value
            && At(buf, r.pos, PutReflectors(g.value)) && g.reader.pos == r.pos + |PutReflectors(g.value)|
  {
    hide PutReflector, GetReflector, NormReflector, At;
    if n == 0 {
      AtEmpty(buf, r.pos);
    } else {
      var front := GetReflectors(buf, r, n - 1);
      var last := GetReflector(buf, front.reader);
      PutGetReflector(buf, front.reader);
      PutGetReflectors(buf, r, n - 1);
      AtConcat(buf, r.pos, PutReflectors(front.value), PutReflector(last.value));
      assert (front.value + [last.value])[..n - 1] == front.value;
    }
  }

  // ---- landmarks, behind their flag ----

  function LandmarkWords(l: Landmark): (vs: seq<nat>)
    ensures Fits(LANDMARK_WIDTHS, vs)
  {
    [l.landmarkFilter, l.numReflectors]
  }

  function PutLandmark(l: Landmark): seq<byte>
    requires l.numReflectors <= |l.reflectors|
  {
    Put(LANDMARK_WIDTHS, LandmarkWords(l)) + PutReflectors(l.reflectors[..l.numReflectors])
  }

  function GetLandmark(buf: seq<byte>, r: Reader): (l: Read<Landmark>)
    ensures |l.value.reflectors| == l.value.numReflectors
  {
    GetFits(buf, r, LANDMARK_WIDTHS);
    var g := Get(buf, r, LANDMARK_WIDTHS);
    var fs := GetReflectors(buf, g.reader, g.value[1]);
    Read(Landmark(g.value[0], g.value[1], fs.value), fs.reader)
  }

  function NormLandmark(l: Landmark): (n: Landmark)
    requires l.numReflectors <= |l.reflectors|
    ensures n.numReflectors == |n.reflectors|
  {
    l.(reflectors := NormReflectors(l.reflectors[..l.numReflectors]))
  }

  lemma GetPutLandmark(buf: seq<byte>, r: Reader, l: Landmark)
    requires l.numReflectors <= |l.reflectors| && At(buf, r.pos, PutLandmark(l))
    ensures GetLandmark(buf, r) == Read(NormLandmark(l), Reader(r.pos + |PutLandmark(l)|, r.ok))
  {
    hide Put, Get, PutReflectors, GetReflectors, NormReflectors, At;
    var fs := l.reflectors[..l.numReflectors];
    AtConcat(buf, r.pos, Put(LANDMARK_WIDTHS, LandmarkWords(l)), PutReflectors(fs));
    GetPut(buf, r, LANDMARK_WIDTHS, LandmarkWords(l));
    GetPutReflectors(buf, Get(buf, r, LANDMARK_WIDTHS).reader, fs);
  }

  lemma PutGetLandmark(buf: seq<byte>, r: Reader)
    requires GetLandmark(buf, r).reader.ok && GetLandmark(buf, r).reader.pos <= |buf|
    ensures var g := GetLandmark(buf, r);
            && r.ok && NormLandmark(g.value) == g.value
            && At(buf, r.pos, PutLandmark(g.value)) && g.reader.pos == r.pos + |PutLandmark(g.value)|
  {
    hide Put, Get, PutReflectors, GetReflectors, At;
    GetFits(buf, r, LANDMARK_WIDTHS);
    var g := Get(buf, r, LANDMARK_WIDTHS);
    var fs := GetReflectors(buf, g.reader, g.value[1]);
    PutGetReflectors(buf, g.reader, g.value[1]);
    GetWithin(buf, r, LANDMARK_WIDTHS);
    PutGet(buf, r, LANDMARK_WIDTHS);
    assert g.value == LandmarkWords(GetLandmark(buf, r).value);
    AtConcat(buf, r.pos, Put(LANDMARK_WIDTHS, g.value), PutReflectors(fs.value));
    assert fs.value[..g.value[1]] == fs.value;
  }

  // ---- channels ----

  function PutData(w: width, data: seq<nat>): seq<byte> {
    Put(Repeat(w, |data|), data)
  }

  function PutChannel(c: Channel, w: width): seq<byte>
    requires c.numData <= |c.data|
  {
    c.contentType + Put(CHANNEL_WIDTHS, ChannelWords(c)) + PutData(w, c.data[..c.numData])
  }

  /** Five bytes at a position, taken without a bounds check; beyond holds the memory behind the telegram. */
  function Peek(buf: seq<byte>, beyond: nat -> byte, pos: nat): (tag: seq<byte>)
    ensures |tag| == TAG_LENGTH
  {
    seq(TAG_LENGTH, i requires 0 <= i < TAG_LENGTH => if pos + i < |buf| then buf[pos + i] else beyond(pos + i))
  }

  function GetChannel(buf: seq<byte>, beyond: nat -> byte, r: Reader, w: width): (c: Read<Channel>)
    ensures |c.value.data| == c.value.numData && |c.value.contentType| == TAG_LENGTH
  {
    var start := Reader(r.pos + TAG_LENGTH, r.ok);
    GetFits(buf, start, CHANNEL_WIDTHS);
    var g := Get(buf, start, CHANNEL_WIDTHS);
    GetFits(buf, g.reader, Repeat(w, g.value[5]));
    var d := Get(buf, g.reader, Repeat(w, g.value[5]));
    Read(ChannelOf(Peek(buf, beyond, r.pos), g.value, d.value), d.reader)
  }

  function NormChannel(c: Channel): (n: Channel)
    requires c.numData <= |c.data|
    ensures n.numData == |n.data|
  {
    c.(data := c.data[..c.numData])
  }

  /** The vector holds the announced data, of the channel's width. */
  ghost predicate ChannelOk(c: Channel, w: width) {
    c.numData <= |c.data| && forall i :: 0 <= i < |c.data| ==> c.data[i] < Limit(w)
  }

  lemma PeekAt(buf: seq<byte>, beyond: nat -> byte, pos: nat, tag: seq<byte>)
    requires |tag| == TAG_LENGTH && pos + TAG_LENGTH <= |buf|
    ensures At(buf, pos, tag) <==> Peek(buf, beyond, pos) == tag
  {
    assert buf[pos..pos + TAG_LENGTH] == Peek(buf, beyond, pos);
  }

  lemma AtThree(buf: seq<byte>, pos: nat, a: seq<byte>, b: seq<byte>, c: seq<byte>)
    ensures At(buf, pos, a + b + c)
            <==> At(buf, pos, a) && At(buf, pos + |a|, b) && At(buf, pos + |a| + |b|, c)
  {
    AtConcat(buf, pos, a + b, c);
    AtConcat(buf, pos, a, b);
  }

  lemma GetPutChannel(buf: seq<byte>, beyond: nat -> byte, r: Reader, c: Channel, w: width)
    requires ChannelOk(c, w) && |c.contentType| == TAG_LENGTH && At(buf, r.pos, PutChannel(c, w))
    ensures GetChannel(buf, beyond, r, w) == Read(NormChannel(c), Reader(r.pos + |PutChannel(c, w)|, r.ok))
  {
    hide Put, Get;
    var data := c.data[..c.numData];
    AtThree(buf, r.pos, c.contentType, Put(CHANNEL_WIDTHS, ChannelWords(c)), PutData(w, data));
    PeekAt(buf, beyond, r.pos, c.contentType);
    var start := Reader(r.pos + TAG_LENGTH, r.ok);
    GetPut(buf, start, CHANNEL_WIDTHS, ChannelWords(c));
    GetPut(buf, Get(buf, start, CHANNEL_WIDTHS).reader, Repeat(w, |data|), data);
  }

  lemma PutGetChannel(buf: seq<byte>, beyond: nat -> byte, r: Reader, w: width)
    requires GetChannel(buf, beyond, r, w).reader.ok && GetChannel(buf, beyond, r, w).reader.pos <= |buf|
    ensures var g := GetChannel(buf, beyond, r, w);
            && r.ok && ChannelOk(g.value, w) && NormChannel(g.value) == g.value
            && At(buf, r.pos, PutChannel(g.value, w)) && g.reader.pos == r.pos + |PutChannel(g.value, w)|
  {
    hide Put, Get, At;
    var start := Reader(r.pos + TAG_LENGTH, r.ok);
    GetFits(buf, start, CHANNEL_WIDTHS);
    var g := Get(buf, start, CHANNEL_WIDTHS);
    var n := g.value[5];
    GetFits(buf, g.reader, Repeat(w, n));
    var d := Get(buf, g.reader, Repeat(w, n));
    PutGet(buf, g.reader, Repeat(w, n));
    PutGet(buf, start, CHANNEL_WIDTHS);
    var c := GetChannel(buf, beyond, r, w).value;
    PeekAt(buf, beyond, r.pos, c.contentType);
    assert c.data[..c.numData] == d.value && ChannelWords(c) == g.value;
    AtThree(buf, r.pos, c.contentType, Put(CHANNEL_WIDTHS, g.value), PutData(w, d.value));
  }

  function PutChannels(cs: seq<Channel>, w: width): seq<byte>
    requires forall i :: 0 <= i < |cs| ==> cs[i].numData <= |cs[i].data|
  {
    if cs == [] then [] else PutChannels(cs[..|cs| - 1], w) + PutChannel(cs[|cs| - 1], w)
  }

  function GetChannels(buf: seq<byte>, beyond: nat -> byte, r: Reader, n: nat, w: width): (g: Read<seq<Channel>>)
    ensures |g.value| == n
    ensures forall i :: 0 <= i < n ==> g.value[i].numData == |g.value[i].data| && |g.value[i].contentType| == TAG_LENGTH
  {
    if n == 0 then Read([], r)
    else
      var front := GetChannels(buf, beyond, r, n - 1, w);
      var last := GetChannel(buf, beyond, front.reader, w);
      Read(front.value + [last.value], last.reader)
  }

  ghost predicate ChannelsOk(cs: seq<Channel>, w: width) {
    forall i :: 0 <= i < |cs| ==> ChannelOk(cs[i], w)
  }

  function NormChannels(cs: seq<Channel>): (ns: seq<Channel>)
    requires forall i :: 0 <= i < |cs| ==> cs[i].numData <= |cs[i].data|
    ensures |ns| == |cs|
  {
    seq(|cs|, i requires 0 <= i < |cs| => NormChannel(cs[i]))
  }

  ghost predicate Tagged(cs: seq<Channel>) {
    forall i :: 0 <= i < |cs| ==> |cs[i].contentType| == TAG_LENGTH
  }

  lemma {:induction false} GetPutChannels(buf: seq<byte>, beyond: nat -> byte, r: Reader, cs: seq<Channel>, w: width)
    requires ChannelsOk(cs, w) && Tagged(cs) && At(buf, r.pos, PutChannels(cs, w))
    ensures GetChannels(buf, beyond, r, |cs|, w)
            == Read(NormChannels(cs), Reader(r.pos + |PutChannels(cs, w)|, r.ok))
  {
    hide PutChannel, GetChannel;
    if cs != [] {
      var front, last := cs[..|cs| - 1], cs[|cs| - 1];
      AtConcat(buf, r.pos, PutChannels(front, w), PutChannel(last, w));
      GetPutChannels(buf, beyond, r, front, w);
      GetPutChannel(buf, beyond, GetChannels(buf, beyond, r, |front|, w).reader, last, w);
      assert NormChannels(cs) == NormChannels(front) + [NormChannel(last)];
    }
  }

  lemma ChannelsMore(front: seq<Channel>, last: Channel, w: width)
    requires ChannelsOk(front, w) && ChannelOk(last, w)
    ensures ChannelsOk(front + [last], w)
    ensures PutChannels(front + [last], w) == PutChannels(front, w) + PutChannel(last, w)
    ensures NormChannels(front + [last]) == NormChannels(front) + [NormChannel(last)]
  {
    hide PutChannel, NormChannel;
    Front(front, last);
  }

  /** What one more channel read adds to the channels before it. */
  lemma PutGetMore(buf: seq<byte>, pos: nat, front: seq<Channel>, last: Channel, w: width)
    requires ChannelsOk(front, w) && ChannelOk(last, w)
    requires NormChannels(front) == front && NormChannel(last) == last
    requires At(buf, pos, PutChannels(front, w)) && At(buf, pos + |PutChannels(front, w)|, PutChannel(last, w))
    ensures ChannelsOk(front + [last], w) && NormChannels(front + [last]) == front + [last]
    ensures At(buf, pos, PutChannels(front + [last], w))
    ensures |PutChannels(front + [last], w)| == |PutChannels(front, w)| + |PutChannel(last, w)|
  {
    hide PutChannel, NormChannel, PutChannels, NormChannels, At;
    AtConcat(buf, pos, PutChannels(front, w), PutChannel(last, w));
    ChannelsMore(front, last, w);
  }

  lemma {:induction false} PutGetChannels(buf: seq<byte>, beyond: nat -> byte, r: Reader, n: nat, w: width)
    requires GetChannels(buf, beyond, r, n, w).reader.ok && GetChannels(buf, beyond, r, n, w).reader.pos <= |buf|
    ensures var g := GetChannels(buf, beyond, r, n, w);
            && r.ok && ChannelsOk(g.value, w) && NormChannels(g.value) == g.value
            && At(buf, r.pos, PutChannels(g.value, w)) && g.reader.pos == r.pos + |PutChannels(g.value, w)|
  {
    hide PutChannel, GetChannel, NormChannel, ChannelOk, At;
    if n == 0 {
      AtEmpty(buf, r.pos);
    } else {
      hide PutChannels, NormChannels;
      var front := GetChannels(buf, beyond, r, n - 1, w);
      var last := GetChannel(buf, beyond, front.reader, w);
      PutGetChannel(buf, beyond, front.reader, w);
      PutGetChannels(buf, beyond, r, n - 1, w);
      PutGetMore(buf, r.pos, front.value, last.value, w);
    }
  }

  // ---- what normalisation leaves unchanged ----

  lemma PutNormReflector(f: Reflector)
    ensures PutReflector(NormReflector(f)) == PutReflector(f)
    ensures NormReflector(NormReflector(f)) == NormReflector(f)
  {
  }

  lemma {:induction false} PutNormReflectors(fs: seq<Reflector>)
    ensures PutReflectors(NormReflectors(fs)) == PutReflectors(fs)
    ensures NormReflectors(NormReflectors(fs)) == NormReflectors(fs)
  {
    hide PutReflector;
    if fs != [] {
      var front, last := fs[..|fs| - 1], fs[|fs| - 1];
      PutNormReflectors(front);
      PutNormReflector(last);
      assert NormReflectors(fs)[..|fs| - 1] == NormReflectors(front);
    }
  }

  lemma PutNormChannel(c: Channel, w: width)
    requires c.numData <= |c.data|
    ensures PutChannel(NormChannel(c), w) == PutChannel(c, w)
    ensures NormChannel(NormChannel(c)) == NormChannel(c)
    ensures ChannelOk(c, w) ==> ChannelOk(NormChannel(c), w)
  {
    assert NormChannel(c).data[..c.numData] == c.data[..c.numData];
  }

  lemma {:induction false} PutNormChannels(cs: seq<Channel>, w: width)
    requires ChannelsOk(cs, w)
    ensures ChannelsOk(NormChannels(cs), w)
    ensures PutChannels(NormChannels(cs), w) == PutChannels(cs, w)
    ensures NormChannels(NormChannels(cs)) == NormChannels(cs)
  {
    hide PutChannel, NormChannel;
    if cs != [] {
      var front, last := cs[..|cs| - 1], cs[|cs| - 1];
      assert ChannelOk(last, w);
      hide ChannelOk;
      PutNormChannels(front, w);
      PutNormChannel(last, w);
      assert front + [last] == cs;
      ChannelsMore(front, last, w);
      ChannelsMore(NormChannels(front), NormChannel(last), w);
      hide PutChannels, NormChannels, ChannelsOk;
    }
  }
}
