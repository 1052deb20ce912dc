/** LFErec telegrams: a list of field evaluations, each with an optional timestamp and, for LMS5xx, an extension. */
module FieldEvaluation {
  import opened Bytes
  import opened Fields
  import opened Timestamps

  /** Bytes before the field list: STX word, length, "sSN LFErec ". */
  const START: nat := 19
  /** Bytes an LMS5xx adds to a field with a dummy word other than zero. */
  const EXTENSION: nat := 15
  const RESULT_WIDTHS: seq<width> := [2, 1, 4, 4, 4, 4, 4, 1]
  const DUMMY_WIDTHS: seq<width> := [2, 2, 2]

  /** Scale factors and offsets are kept as the words they are on the wire. */
  datatype FieldMsg = FieldMsg(versionNumber: u16, fieldIndex: u8, sysCount: u32,
                               distScaleFactor: u32, distScaleOffset: u32, angleScaleFactor: u32, angleScaleOffset: u32,
                               fieldResultMrs: u8, timeState: u16, time: Time)

  /** A field on the wire: what is published, the dummy words, and the extension. */
  datatype Field = Field(msg: FieldMsg, dummies: seq<nat>, extra: seq<byte>)

  function ResultWords(m: FieldMsg): (vs: seq<nat>)
    ensures Fits(RESULT_WIDTHS, vs)
  {
    [m.versionNumber, m.fieldIndex, m.sysCount, m.distScaleFactor, m.distScaleOffset,
     m.angleScaleFactor, m.angleScaleOffset, m.fieldResultMrs]
  }

  function MsgOf(vs: seq<nat>, timeState: u16, time: Time): (m: FieldMsg)
    requires Fits(RESULT_WIDTHS, vs)
    ensures ResultWords(m) == vs && m.timeState == timeState && m.time == time
  {
    assert RESULT_WIDTHS[1] == 1 && RESULT_WIDTHS[2] == 4 && RESULT_WIDTHS[3] == 4 && RESULT_WIDTHS[4] == 4;
    assert RESULT_WIDTHS[5] == 4 && RESULT_WIDTHS[6] == 4 && RESULT_WIDTHS[7] == 1 && RESULT_WIDTHS[0] == 2;
    FieldMsg(vs[0], vs[1], vs[2], vs[3], vs[4], vs[5], vs[6], vs[7], timeState, time)
  }

  /** The length of the extension behind these dummy words. */
  function Skipped(dummies: seq<nat>, lms5xx: bool): nat
    requires |dummies| == 3
  {
    if lms5xx && (dummies[0] != 0 || dummies[1] != 0 || dummies[2] != 0) then EXTENSION else 0
  }

  ghost predicate FieldOk(f: Field, lms5xx: bool) {
    && Fits(DUMMY_WIDTHS, f.dummies) && |f.extra| == Skipped(f.dummies, lms5xx)
    && (f.msg.timeState == 0 ==> f.msg.time == NO_TIME)
  }

  ghost predicate FieldsOk(fs: seq<Field>, lms5xx: bool) {
    forall i :: 0 <= i < |fs| ==> FieldOk(fs[i], lms5xx)
  }

  function PutField(f: Field): seq<byte>
    requires |f.dummies| == 3
  {
    Put(RESULT_WIDTHS, ResultWords(f.msg)) + Put(DUMMY_WIDTHS, f.dummies) + f.extra
    + PutOptional(f.msg.timeState, TIME_WIDTHS, TimeWords(f.msg.time))
  }

  /** Steps over bytes that are not looked at. */
  function Skip(buf: seq<byte>, r: Reader, n: nat): Read<seq<byte>> {
    if r.pos + n <= |buf| then Read(buf[r.pos..r.pos + n], Reader(r.pos + n, r.ok))
    else Read([], Reader(r.pos + n, false))
  }

  function GetField(buf: seq<byte>, r: Reader, lms5xx: bool): Read<Field> {
    var a := Get(buf, r, RESULT_WIDTHS);
    var d := Get(buf, a.reader, DUMMY_WIDTHS);
    GetFits(buf, r, RESULT_WIDTHS);
    GetFits(buf, a.reader, DUMMY_WIDTHS);
    var s := Skip(buf, d.reader, Skipped(d.value, lms5xx));
    var t := GetOptional(buf, s.reader, TIME_WIDTHS);
    GetOptionalFits(buf, s.reader, TIME_WIDTHS);
    Read(Field(MsgOf(a.value, t.value.flag, TimeOf(t.value.words)), d.value, s.value), t.reader)
  }

  function PutFields(fs: seq<Field>): seq<byte>
    requires forall i :: 0 <= i < |fs| ==> |fs[i].dummies| == 3
  {
    if fs == [] then [] else PutFields(fs[..|fs| - 1]) + PutField(fs[|fs| - 1])
  }

  function GetFields(buf: seq<byte>, r: Reader, n: nat, lms5xx: bool): (g: Read<seq<Field>>)
    ensures |g.value| == n
  {
    if n == 0 then Read([], r)
    else
      var front := GetFields(buf, r, n - 1, lms5xx);
      var last := GetField(buf, front.reader, lms5xx);
      Read(front.value + [last.value], last.reader)
  }

  function Messages(fs: seq<Field>): (ms: seq<FieldMsg>)
    ensures |ms| == |fs|
  {
    seq(|fs|, i requires 0 <= i < |fs| => fs[i].msg)
  }

  /** The announced number of fields. */
  function Number(buf: seq<byte>): nat {
    if START + 2 <= |buf| then Be(buf[START..START + 2]) else 0
  }

  function ReadAll(buf: seq<byte>, lms5xx: bool): Read<seq<Field>> {
    GetFields(buf, Reader(START + 2, true), Number(buf), lms5xx)
  }

  /** All announced fields are there, at least one, and only the checksum is left. */
  predicate Accepts(buf: seq<byte>, lms5xx: bool) {
    && Number(buf) > 0
    && var r := ReadAll(buf, lms5xx).reader;
       r.ok && r.pos + 1 == |buf|
  }

  // ---- one field ----

  lemma SkipAt(buf: seq<byte>, r: Reader, e: seq<byte>)
    requires At(buf, r.pos, e)
    ensures Skip(buf, r, |e|) == Read(e, Reader(r.pos + |e|, r.ok))
  {
  }

  lemma AtSkip(buf: seq<byte>, r: Reader, n: nat)
    requires Skip(buf, r, n).reader.ok
    ensures var s := Skip(buf, r, n);
            && r.ok && |s.value| == n && At(buf, r.pos, s.value) && s.reader.pos == r.pos + n <= |buf|
  {
  }

  lemma GetPutField(buf: seq<byte>, r: Reader, f: Field, lms5xx: bool)
    requires FieldOk(f, lms5xx) && At(buf, r.pos, PutField(f))
    ensures GetField(buf, r, lms5xx) == Read(f, Reader(r.pos + |PutField(f)|, r.ok))
  {
    hide At, Put, Get, PutOptional, GetOptional, Skip;
    var a, d := Put(RESULT_WIDTHS, ResultWords(f.msg)), Put(DUMMY_WIDTHS, f.dummies);
    var t := PutOptional(f.msg.timeState, TIME_WIDTHS, TimeWords(f.msg.time));
    AtFour(buf, r.pos, a, d, f.extra, t);
    GetPut(buf, r, RESULT_WIDTHS, ResultWords(f.msg));
    GetPut(buf, Reader(r.pos + |a|, r.ok), DUMMY_WIDTHS, f.dummies);
    SkipAt(buf, Reader(r.pos + |a| + |d|, r.ok), f.extra);
    GetPutOptional(buf, Reader(r.pos + |a| + |d| + |f.extra|, r.ok), f.msg.timeState, TIME_WIDTHS,
                   TimeWords(f.msg.time));
    assert TimeWords(NO_TIME) == Zeros(7);
  }

  lemma PutGetField(buf: seq<byte>, r: Reader, lms5xx: bool)
    requires GetField(buf, r, lms5xx).reader.ok
    ensures var g := GetField(buf, r, lms5xx);
            && r.ok && FieldOk(g.value, lms5xx)
            && At(buf, r.pos, PutField(g.value)) && g.reader.pos == r.pos + |PutField(g.value)| <= |buf|
  {
    hide At, Put, Get, PutOptional, GetOptional, Skip;
    var a := Get(buf, r, RESULT_WIDTHS);
    var d := Get(buf, a.reader, DUMMY_WIDTHS);
    GetFits(buf, r, RESULT_WIDTHS);
    GetFits(buf, a.reader, DUMMY_WIDTHS);
    var n := Skipped(d.value, lms5xx);
    var s := Skip(buf, d.reader, n);
    var t := GetOptional(buf, s.reader, TIME_WIDTHS);
    GetOptionalFits(buf, s.reader, TIME_WIDTHS);
    AtSkip(buf, d.reader, n);
    GetWithin(buf, a.reader, DUMMY_WIDTHS);
    GetWithin(buf, r, RESULT_WIDTHS);
    PutGet(buf, r, RESULT_WIDTHS);
    PutGet(buf, a.reader, DUMMY_WIDTHS);
    PutGetOptional(buf, s.reader, TIME_WIDTHS);
    AtFour(buf, r.pos, Put(RESULT_WIDTHS, a.value), Put(DUMMY_WIDTHS, d.value), s.value,
           PutOptional(t.value.flag, TIME_WIDTHS, t.value.words));
    assert TimeOf(Zeros(7)) == NO_TIME;
  }

  // ---- field lists ----

  lemma FieldsMore(front: seq<Field>, last: Field, lms5xx: bool)
    requires FieldsOk(front, lms5xx) && FieldOk(last, lms5xx)
    ensures FieldsOk(front + [last], lms5xx)
    ensures PutFields(front + [last]) == PutFields(front) + PutField(last)
  {
    hide PutField;
    Front(front, last);
  }

  lemma GetFieldsMore(buf: seq<byte>, r: Reader, n: nat, lms5xx: bool)
    ensures var front := GetFields(buf, r, n, lms5xx);
            var last := GetField(buf, front.reader, lms5xx);
            GetFields(buf, r, n + 1, lms5xx) == Read(front.value + [last.value], last.reader)
  {
    hide GetField;
  }

  lemma {:induction false} GetPutFields(buf: seq<byte>, r: Reader, fs: seq<Field>, lms5xx: bool)
    requires FieldsOk(fs, lms5xx) && At(buf, r.pos, PutFields(fs))
    ensures GetFields(buf, r, |fs|, lms5xx) == Read(fs, Reader(r.pos + |PutFields(fs)|, r.ok))
  {
    hide At, PutField, GetField;
    if fs != [] {
      var front, last := fs[..|fs| - 1], fs[|fs| - 1];
      assert FieldOk(last, lms5xx) && front + [last] == fs;
      hide FieldOk;
      FieldsMore(front, last, lms5xx);
      hide *;
      AtConcat(buf, r.pos, PutFields(front), PutField(last));
      GetPutFields(buf, r, front, lms5xx);
      GetPutField(buf, GetFields(buf, r, |front|, lms5xx).reader, last, lms5xx);
      GetFieldsMore(buf, r, |front|, lms5xx);
    }
  }

  lemma PutGetMore(buf: seq<byte>, pos: nat, front: seq<Field>, last: Field, lms5xx: bool)
    requires FieldsOk(front, lms5xx) && FieldOk(last, lms5xx)
    requires At(buf, pos, PutFields(front)) && At(buf, pos + |PutFields(front)|, PutField(last))
    ensures FieldsOk(front + [last], lms5xx) && At(buf, pos, PutFields(front + [last]))
    ensures |PutFields(front + [last])| == |PutFields(front)| + |PutField(last)|
  {
    hide At, PutField, PutFields;
    FieldsMore(front, last, lms5xx);
    AtConcat(buf, pos, PutFields(front), PutField(last));
  }

  lemma {:induction false} PutGetFields(buf: seq<byte>, r: Reader, n: nat, lms5xx: bool)
    requires GetFields(buf, r, n, lms5xx).reader.ok && r.pos <= |buf|
    ensures var g := GetFields(buf, r, n, lms5xx);
            && FieldsOk(g.value, lms5xx)
            && At(buf, r.pos, PutFields(g.value)) && g.reader.pos == r.pos + |PutFields(g.value)|
  {
    hide At, PutField, GetField;
    if n == 0 {
      AtEmpty(buf, r.pos);
    } else {
      hide PutFields;
      var front := GetFields(buf, r, n - 1, lms5xx);
      var last := GetField(buf, front.reader, lms5xx);
      PutGetField(buf, front.reader, lms5xx);
      PutGetFields(buf, r, n - 1, lms5xx);
      PutGetMore(buf, r.pos, front.value, last.value, lms5xx);
    }
  }

  lemma {:induction false} FieldsStop(buf: seq<byte>, r: Reader, n: nat, i: nat, lms5xx: bool)
    requires i <= n && GetFields(buf, r, n, lms5xx).reader.ok
    ensures GetFields(buf, r, i, lms5xx).reader.ok
    decreases n
  {
    hide GetField;
    if i < n {
      PutGetField(buf, GetFields(buf, r, n - 1, lms5xx).reader, lms5xx);
      FieldsStop(buf, r, n - 1, i, lms5xx);
    }
  }

  // ---- the telegram ----

  function PutTelegram(head: seq<byte>, fs: seq<Field>, crc: byte): seq<byte>
    requires forall i :: 0 <= i < |fs| ==> |fs[i].dummies| == 3
  {
    head + (ToBe(|fs|, 2) + PutFields(fs)) + [crc]
  }

  /** A nonempty field list between any head and checksum is accepted and read back as it was. */
  lemma FieldsAreAccepted(head: seq<byte>, fs: seq<Field>, crc: byte, lms5xx: bool)
    requires |head| == START && 0 < |fs| < 0x1_0000 && FieldsOk(fs, lms5xx)
    ensures var buf := PutTelegram(head, fs, crc);
            Accepts(buf, lms5xx) && ReadAll(buf, lms5xx).value == fs
  {
    hide At, Be, ToBe, PutFields, GetFields;
    var buf, count := PutTelegram(head, fs, crc), ToBe(|fs|, 2);
    AtMiddle(head, count + PutFields(fs), [crc]);
    AtConcat(buf, START, count, PutFields(fs));
    AtSlice(buf, START, count);
    LimitIsPow256(2);
    BeToBe(|fs|, 2);
    GetPutFields(buf, Reader(START + 2, true), fs, lms5xx);
  }

  /** What is accepted is the encoding of exactly the announced number of fields, with nothing left over. */
  lemma AcceptedIsFields(buf: seq<byte>, lms5xx: bool)
    requires Accepts(buf, lms5xx)
    ensures var fs := ReadAll(buf, lms5xx).value;
            && |fs| == Number(buf) && FieldsOk(fs, lms5xx)
            && buf == PutTelegram(buf[..START], fs, buf[|buf| - 1])
  {
    hide At, Be, ToBe, PutFields, GetFields;
    var fs, n := ReadAll(buf, lms5xx).value, Number(buf);
    PutGetFields(buf, Reader(START + 2, true), n, lms5xx);
    CountBytes(buf);
    AtConcat(buf, START, ToBe(n, 2), PutFields(fs));
    AtToEnd(buf, START, ToBe(n, 2) + PutFields(fs));
  }

  lemma CountBytes(buf: seq<byte>)
    requires START + 2 <= |buf|
    ensures Number(buf) < 0x1_0000 && At(buf, START, ToBe(Number(buf), 2))
  {
    hide Be, ToBe;
    LimitIsPow256(2);
    BeBound(buf[START..START + 2]);
    ToBeBe(buf[START..START + 2]);
  }

  // ---- the parser ----

  /** Reads one field of the list; stops at the first part that is not complete. */
  method ReadField(buf: seq<byte>, start: nat, lms5xx: bool) returns (m: FieldMsg, pos: nat, ok: bool)
    ensures var g := GetField(buf, Reader(start, true), lms5xx);
            ok == g.reader.ok && (ok ==> m == g.value.msg && pos == g.reader.pos)
  {
    hide Get, PutOptional;
    ghost var r := Reader(start, true);
    ghost var a := Get(buf, r, RESULT_WIDTHS);
    GetFits(buf, r, RESULT_WIDTHS);
    GetFits(buf, a.reader, DUMMY_WIDTHS);
    ghost var d := Get(buf, a.reader, DUMMY_WIDTHS);
    ghost var s := Skip(buf, d.reader, Skipped(d.value, lms5xx));
    GetOptionalFits(buf, s.reader, TIME_WIDTHS);
    GetFits(buf, s.reader, FLAG_WIDTHS);
    GetFits(buf, Get(buf, s.reader, FLAG_WIDTHS).reader, TIME_WIDTHS);
    m := FieldMsg(0, 0, 0, 0, 0, 0, 0, 0, 0, NO_TIME);
    var values, dummies, flag, time;
    values, pos, ok := ReadChain(buf, start, RESULT_WIDTHS);
    if !ok {
      return;
    }
    dummies, pos, ok := ReadChain(buf, pos, DUMMY_WIDTHS);
    if !ok {
      return;
    }
    pos := pos + Skipped(dummies, lms5xx);
    if |buf| < pos {
      return m, pos, false;
    }
    flag, pos, ok := ReadChain(buf, pos, FLAG_WIDTHS);
    if !ok {
      return;
    }
    if flag[0] == 0 {
      m := MsgOf(values, flag[0], NO_TIME);
    } else {
      time, pos, ok := ReadChain(buf, pos, TIME_WIDTHS);
      if !ok {
        return;
      }
      m := MsgOf(values, flag[0], TimeOf(time));
    }
  }

  /**
   parseLFErecMsg; fields is the list in the output message before the call. A telegram shorter than its head leaves a
   negative length, which the unsigned comparison of the reads lets pass and the check behind the first dummy words
   does not.
   */
  method ParseLFErecMsg(receiveBuffer: seq<byte>, useBinaryProtocol: bool, lms5xx: bool, fields: seq<FieldMsg>)
    returns (ok: bool, output: seq<FieldMsg>)
    ensures ok == (useBinaryProtocol && fields == [] && Accepts(receiveBuffer, lms5xx))
    ensures ok ==> output == Messages(ReadAll(receiveBuffer, lms5xx).value)
    ensures |receiveBuffer| < START ==> output == fields
  {
    hide GetField, Be;
    output := fields;
    if !useBinaryProtocol || |receiveBuffer| < START {
      return false, output;
    }
    var count, pos, fits := ReadFromBuffer(receiveBuffer, START, 2);
    if !fits || count <= 0 {
      return false, output;
    }
    assert count == Number(receiveBuffer);
    ghost var r := Reader(START + 2, true);
    for i := 0 to count
      invariant GetFields(receiveBuffer, r, i, lms5xx).reader == Reader(pos, true)
      invariant output == fields + Messages(GetFields(receiveBuffer, r, i, lms5xx).value)
    {
      var m, next, complete := ReadField(receiveBuffer, pos, lms5xx);
      if !complete {
        if GetFields(receiveBuffer, r, count, lms5xx).reader.ok {
          FieldsStop(receiveBuffer, r, count, i + 1, lms5xx);
        }
        return false, output;
      }
      output := output + [m];
      pos := next;
    }
    if |output| != count {
      return false, output;
    }
    return pos + 1 == |receiveBuffer|, output;
  }
}
