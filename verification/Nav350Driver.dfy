/** The driver's writer and parser of NAV350 position telegrams, step by step. */
module Nav350Driver {
  import opened Bytes
  import opened Fields
  import opened Nav350
  import opened Nav350Telegram

  // ---- writer ----

  method AppendOptional(dataBuffer: seq<byte>, flag: u16, ws: seq<width>, vs: seq<nat>) returns (result: seq<byte>)
    requires |ws| == |vs|
    ensures result == dataBuffer + PutOptional(flag, ws, vs)
  {
    hide Put;
    result := AppendFields(dataBuffer, FLAG_WIDTHS, [flag]);
    ghost var head := Put(FLAG_WIDTHS, [flag]);
    if flag > 0 {
      result := AppendFields(result, ws, vs);
      assert dataBuffer + head + Put(ws, vs) == dataBuffer + (head + Put(ws, vs));
    } else {
      assert head + [] == head;
    }
  }

  method AppendPose(dataBuffer: seq<byte>, pose: Pose) returns (result: seq<byte>)
    ensures result == dataBuffer + PutPose(pose)
  {
    result := AppendFields(dataBuffer, POSE_WIDTHS, PoseWords(pose));
    if pose.optPoseDataValid > 0 {
      result := AppendFields(result, OPT_POSE_WIDTHS, OptPoseWords(pose.opt));
    }
  }

  method AppendReflector(dataBuffer: seq<byte>, f: Reflector) returns (result: seq<byte>)
    ensures result == dataBuffer + PutReflector(f)
  {
    hide PutOptional;
    result := AppendOptional(dataBuffer, f.cartesianDataValid, CARTESIAN_WIDTHS, CartesianWords(f.cartesian));
    result := AppendOptional(result, f.polarDataValid, POLAR_WIDTHS, PolarWords(f.polar));
    result := AppendOptional(result, f.optReflectorDataValid, OPT_REFLECTOR_WIDTHS, OptReflectorWords(f.opt));
  }

  method AppendLandmark(dataBuffer: seq<byte>, l: Landmark) returns (result: seq<byte>)
    requires l.numReflectors <= |l.reflectors|
    ensures result == dataBuffer + PutLandmark(l)
  {
    hide Put, PutReflector;
    result := AppendFields(dataBuffer, LANDMARK_WIDTHS, LandmarkWords(l));
    ghost var head := result;
    var reflectorCnt := 0;
    while reflectorCnt < l.numReflectors
      invariant 0 <= reflectorCnt <= l.numReflectors
      invariant result == head + PutReflectors(l.reflectors[..reflectorCnt])
    {
      assert l.reflectors[..reflectorCnt + 1][..reflectorCnt] == l.reflectors[..reflectorCnt];
      result := AppendReflector(result, l.reflectors[reflectorCnt]);
      reflectorCnt := reflectorCnt + 1;
    }
  }

  method AppendChannel(dataBuffer: seq<byte>, c: Channel, w: width) returns (result: seq<byte>)
    requires c.numData <= |c.data|
    ensures result == dataBuffer + PutChannel(c, w)
  {
    hide Put;
    result := AppendFields(dataBuffer + c.contentType, CHANNEL_WIDTHS, ChannelWords(c));
    ghost var head := result;
    PutNoData(w, c.data);
    var dataCnt := 0;
    while dataCnt < c.numData
      invariant 0 <= dataCnt <= c.numData
      invariant result == head + PutData(w, c.data[..dataCnt])
    {
      PutDataMore(w, c.data, dataCnt);
      result := AppendToBuffer(result, c.data[dataCnt], w);
      dataCnt := dataCnt + 1;
    }
  }

  lemma PutNoData(w: width, data: seq<nat>)
    ensures PutData(w, data[..0]) == []
  {
  }

  lemma PutDataMore(w: width, data: seq<nat>, n: nat)
    requires n < |data|
    ensures PutData(w, data[..n + 1]) == PutData(w, data[..n]) + ToBe(data[n], w)
  {
    assert Repeat(w, n + 1)[..n] == Repeat(w, n) && data[..n + 1][..n] == data[..n];
  }

  method AppendChannels(dataBuffer: seq<byte>, cs: seq<Channel>, count: nat, w: width) returns (result: seq<byte>)
    requires count <= |cs| && forall i :: 0 <= i < |cs| ==> cs[i].numData <= |cs[i].data|
    ensures result == dataBuffer + PutChannels(cs[..count], w)
  {
    hide PutChannel;
    result := dataBuffer;
    var channel := 0;
    while channel < count
      invariant 0 <= channel <= count
      invariant result == dataBuffer + PutChannels(cs[..channel], w)
    {
      assert cs[..channel + 1][..channel] == cs[..channel];
      result := AppendChannel(result, cs[channel], w);
      channel := channel + 1;
    }
  }

  method AppendHead(dataBuffer: seq<byte>, n: NavData) returns (result: seq<byte>)
    ensures result == dataBuffer + PutHead(n)
  {
    hide Put, PutPose;
    result := AppendFields(dataBuffer, HEAD_WIDTHS, HeadWords(n));
    if n.poseDataValid > 0 {
      result := AppendPose(result, n.pose);
    }
  }

  method AppendLandmarkSection(dataBuffer: seq<byte>, n: NavData) returns (result: seq<byte>)
    requires Writable(n)
    ensures result == dataBuffer + PutLandmarkSection(n.landmarkDataValid, n.landmark)
  {
    hide Put, PutLandmark;
    result := AppendFields(dataBuffer, FLAG_WIDTHS, [n.landmarkDataValid]);
    if n.landmarkDataValid > 0 {
      result := AppendLandmark(result, n.landmark);
    }
  }

  method AppendRemissionSection(dataBuffer: seq<byte>, n: NavData) returns (result: seq<byte>)
    requires Writable(n)
    ensures result == dataBuffer + PutRemissionSection(n.remissionDataValid, n.remission)
  {
    hide Put, PutChannel;
    result := AppendFields(dataBuffer, FLAG_WIDTHS, [n.remissionDataValid]);
    if n.remissionDataValid > 0 {
      result := AppendChannel(result, n.remission, REMISSION_WIDTH);
    }
  }

  /** Appends the data set behind what the buffer holds. */
  method AppendBody(dataBuffer: seq<byte>, n: NavData) returns (result: seq<byte>)
    requires Writable(n)
    ensures result == dataBuffer + Body(n)
  {
    hide Put, PutHead, PutLandmarkSection, PutChannels, PutRemissionSection;
    result := AppendHead(dataBuffer, n);
    result := AppendLandmarkSection(result, n);
    result := AppendFields(result, FLAG_WIDTHS, [n.scanDataValid]);
    result := AppendChannels(result, n.scanData, n.scanDataValid, SCAN_WIDTH);
    result := AppendRemissionSection(result, n);
  }

  /** Writes the telegram; the payload size is patched in when everything behind it is known. */
  method WriteNAV350BinaryPositionData(navdata: NavData) returns (dataBuffer: seq<byte>)
    requires Writable(navdata)
    ensures dataBuffer == Serialize(navdata)
  {
    hide Body;
    dataBuffer := AppendToBuffer([], 0x0202_0202, 4);
    ToBeFour(0x0202_0202);
    dataBuffer := AppendToBuffer(dataBuffer, 0, 4);
    assert dataBuffer[..4] == STX_WORD && |dataBuffer| == HEADER_LENGTH;
    ghost var header := dataBuffer;
    dataBuffer := dataBuffer + COMMAND;
    dataBuffer := AppendBody(dataBuffer, navdata);
    assert dataBuffer == header + (COMMAND + Body(navdata));
    var payloadSize := |dataBuffer| - 8;
    var payloadBuffer := AppendToBuffer([], payloadSize, 4);
    dataBuffer := dataBuffer[..4] + payloadBuffer + dataBuffer[8..];
    dataBuffer := dataBuffer + [0];
  }

  // ---- parser ----

  method ReadOptional(buf: seq<byte>, receivePos: nat, success: bool, ws: seq<width>)
    returns (flag: nat, words: seq<nat>, pos: nat, ok: bool)
    ensures Read(Optional(flag, words), Reader(pos, ok)) == GetOptional(buf, Reader(receivePos, success), ws)
  {
    var flags;
    flags, pos, ok := ReadFields(buf, receivePos, success, FLAG_WIDTHS);
    flag, words := flags[0], Zeros(|ws|);
    if flag > 0 {
      words, pos, ok := ReadFields(buf, pos, ok, ws);
    }
  }

  method ReadReflector(buf: seq<byte>, receivePos: nat, success: bool) returns (f: Reflector, pos: nat, ok: bool)
    ensures Read(f, Reader(pos, ok)) == GetReflector(buf, Reader(receivePos, success))
  {
    hide GetOptional;
    ghost var r := Reader(receivePos, success);
    var cFlag, c, pFlag, p, oFlag, o;
    GetOptionalFits(buf, r, CARTESIAN_WIDTHS);
    cFlag, c, pos, ok := ReadOptional(buf, receivePos, success, CARTESIAN_WIDTHS);
    GetOptionalFits(buf, Reader(pos, ok), POLAR_WIDTHS);
    pFlag, p, pos, ok := ReadOptional(buf, pos, ok, POLAR_WIDTHS);
    GetOptionalFits(buf, Reader(pos, ok), OPT_REFLECTOR_WIDTHS);
    oFlag, o, pos, ok := ReadOptional(buf, pos, ok, OPT_REFLECTOR_WIDTHS);
    f := Reflector(cFlag, CartesianOf(c), pFlag, PolarOf(p), oFlag, OptReflectorOf(o));
  }

  method ParseNAV350BinaryLandmarkData(buf: seq<byte>, receivePos: nat, success: bool)
    returns (landmarkData: Landmark, pos: nat, ok: bool)
    ensures Read(landmarkData, Reader(pos, ok)) == GetLandmark(buf, Reader(receivePos, success))
  {
    hide GetReflector;
    GetFits(buf, Reader(receivePos, success), LANDMARK_WIDTHS);
    var g;
    g, pos, ok := ReadFields(buf, receivePos, success, LANDMARK_WIDTHS);
    ghost var start := Reader(pos, ok);
    var numReflectors := g[1];
    var reflectors := [];
    var reflectorCnt := 0;
    while reflectorCnt < numReflectors
      invariant 0 <= reflectorCnt <= numReflectors
      invariant Read(reflectors, Reader(pos, ok)) == GetReflectors(buf, start, reflectorCnt)
    {
      var f;
      f, pos, ok := ReadReflector(buf, pos, ok);
      reflectors := reflectors + [f];
      reflectorCnt := reflectorCnt + 1;
    }
    landmarkData := Landmark(g[0], numReflectors, reflectors);
  }

  method ReadChannel(buf: seq<byte>, beyond: nat -> byte, receivePos: nat, success: bool, w: width)
    returns (c: Channel, pos: nat, ok: bool)
    ensures Read(c, Reader(pos, ok)) == GetChannel(buf, beyond, Reader(receivePos, success), w)
  {
    hide Get;
    var contentType := Peek(buf, beyond, receivePos);
    pos := receivePos + TAG_LENGTH;
    GetFits(buf, Reader(pos, success), CHANNEL_WIDTHS);
    var g;
    g, pos, ok := ReadFields(buf, pos, success, CHANNEL_WIDTHS);
    var numData := g[5];
    GetFits(buf, Reader(pos, ok), Repeat(w, numData));
    var data;
    data, pos, ok := ReadFields(buf, pos, ok, Repeat(w, numData));
    c := ChannelOf(contentType, g, data);
  }

  method ReadChannels(buf: seq<byte>, beyond: nat -> byte, receivePos: nat, success: bool, count: nat, w: width)
    returns (cs: seq<Channel>, pos: nat, ok: bool)
    ensures Read(cs, Reader(pos, ok)) == GetChannels(buf, beyond, Reader(receivePos, success), count, w)
  {
    hide GetChannel;
    cs, pos, ok := [], receivePos, success;
    var channel := 0;
    while channel < count
      invariant 0 <= channel <= count
      invariant Read(cs, Reader(pos, ok)) == GetChannels(buf, beyond, Reader(receivePos, success), channel, w)
    {
      var c;
      c, pos, ok := ReadChannel(buf, beyond, pos, ok, w);
      cs := cs + [c];
      channel := channel + 1;
    }
  }

  /** Head and pose of the data set. */
  method ReadHead(buf: seq<byte>, receivePos: nat, success: bool) returns (n: NavData, pos: nat, ok: bool)
    ensures Read(n, Reader(pos, ok)) == GetHead(buf, Reader(receivePos, success))
  {
    hide Get;
    n := NoNavData;
    GetFits(buf, Reader(receivePos, success), HEAD_WIDTHS);
    var g;
    g, pos, ok := ReadFields(buf, receivePos, success, HEAD_WIDTHS);
    n := n.(version := g[0], errorCode := g[1], wait := g[2], mask := g[3], poseDataValid := g[4]);
    if n.poseDataValid > 0 {
      GetFits(buf, Reader(pos, ok), POSE_WIDTHS);
      g, pos, ok := ReadFields(buf, pos, ok, POSE_WIDTHS);
      var pose := PoseOf(g, NoOptPose);
      if pose.optPoseDataValid > 0 {
        GetFits(buf, Reader(pos, ok), OPT_POSE_WIDTHS);
        g, pos, ok := ReadFields(buf, pos, ok, OPT_POSE_WIDTHS);
        pose := pose.(opt := OptPoseOf(g));
      }
      n := n.(pose := pose);
    }
  }

  method ReadBody(buf: seq<byte>, beyond: nat -> byte, receivePos: nat) returns (n: NavData, ok: bool)
    ensures var g := GetBody(buf, beyond, Reader(receivePos, true));
            n == g.value && ok == g.reader.ok
  {
    hide Get, GetHead, GetLandmark, GetChannels, GetChannel;
    var flags, pos;
    n, pos, ok := ReadHead(buf, receivePos, true);
    GetFits(buf, Reader(pos, ok), FLAG_WIDTHS);
    flags, pos, ok := ReadFields(buf, pos, ok, FLAG_WIDTHS);
    var landmark := NoLandmark;
    var landmarkDataValid := flags[0];
    if landmarkDataValid > 0 {
      landmark, pos, ok := ParseNAV350BinaryLandmarkData(buf, pos, ok);
    }
    GetFits(buf, Reader(pos, ok), FLAG_WIDTHS);
    flags, pos, ok := ReadFields(buf, pos, ok, FLAG_WIDTHS);
    var scanDataValid, scanData := flags[0], [];
    scanData, pos, ok := ReadChannels(buf, beyond, pos, ok, scanDataValid, SCAN_WIDTH);
    GetFits(buf, Reader(pos, ok), FLAG_WIDTHS);
    flags, pos, ok := ReadFields(buf, pos, ok, FLAG_WIDTHS);
    var remission := NoChannel;
    var remissionDataValid := flags[0];
    if remissionDataValid > 0 {
      remission, pos, ok := ReadChannel(buf, beyond, pos, ok, REMISSION_WIDTH);
    }
    n := n.(landmarkDataValid := landmarkDataValid, landmark := landmark,
            scanDataValid := scanDataValid, scanData := scanData,
            remissionDataValid := remissionDataValid, remission := remission);
  }

  method ParseNAV350BinaryPositionData(buf: seq<byte>, beyond: nat -> byte) returns (success: bool, navdata: NavData)
    ensures Parsed(success, navdata) == Parse(buf, beyond)
  {
    hide GetBody;
    navdata := NoNavData;
    if |buf| < 17 + 9 || buf[..4] != STX_WORD {
      return false, navdata;
    }
    var payloadSize, receivePos, fits := ReadFromBuffer(buf, 4, 4);
    if !fits || !SizeOk(payloadSize, |buf|) {
      return false, navdata;
    }
    if buf[receivePos..receivePos + COMMAND_LENGTH] != COMMAND {
      return false, navdata;
    }
    receivePos := receivePos + COMMAND_LENGTH;
    navdata, success := ReadBody(buf, beyond, receivePos);
  }

  /** The driver's own check, for every data set: write, parse, write again, compare. */
  method UnittestHolds(src: NavData, beyond: nat -> byte) returns (passed: bool)
    requires Writable(src) && TagsOk(src) && |Serialize(src)| < INT_RANGE
    ensures passed
  {
    hide Parse, Serialize;
    var bufferSrc := WriteNAV350BinaryPositionData(src);
    var success, dst := ParseNAV350BinaryPositionData(bufferSrc, beyond);
    ReserializeIdentical(src, beyond);
    if !success {
      return false;
    }
    var bufferDst := WriteNAV350BinaryPositionData(dst);
    return bufferSrc == bufferDst;
  }
}
