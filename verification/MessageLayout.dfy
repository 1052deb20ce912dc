/** Field evaluation and output state telegrams in raw bytes: where an accepted telegram has what is published. */
module MessageLayout {
  import opened Bytes
  import opened Fields
  import opened Timestamps
  import FieldEvaluation
  import OutputStates

  predicate TimeStands(t: Time, buf: seq<byte>, pos: nat) {
    && Holds(buf, pos, 2, t.year) && Holds(buf, pos + 2, 1, t.month) && Holds(buf, pos + 3, 1, t.day)
    && Holds(buf, pos + 4, 1, t.hour) && Holds(buf, pos + 5, 1, t.minute) && Holds(buf, pos + 6, 1, t.second)
    && Holds(buf, pos + 7, 4, t.microsecond)
  }

  /** A status word, and behind a status other than zero the time in eleven bytes. */
  predicate StatusStands(status: nat, t: Time, buf: seq<byte>, pos: nat) {
    Holds(buf, pos, 2, status) && (status > 0 ==> TimeStands(t, buf, pos + 2))
  }

  lemma StatusHolds(status: u16, t: Time, buf: seq<byte>, pos: nat)
    requires At(buf, pos, PutOptional(status, TIME_WIDTHS, TimeWords(t)))
    ensures StatusStands(status, t, buf, pos)
    ensures |PutOptional(status, TIME_WIDTHS, TimeWords(t))| == if status > 0 then 13 else 2
  {
    hide Put, At, Holds;
    AtConcat(buf, pos, Put(FLAG_WIDTHS, [status]), if status > 0 then Put(TIME_WIDTHS, TimeWords(t)) else []);
    PutHolds(buf, pos, FLAG_WIDTHS, [status], [0, 2]);
    if status > 0 {
      var off := [0, 2, 3, 4, 5, 6, 7, 11];
      PutHolds(buf, pos + 2, TIME_WIDTHS, TimeWords(t), off);
      assert off[1] == 2 && off[2] == 3 && off[3] == 4 && off[4] == 5 && off[5] == 6 && off[6] == 7;
    }
  }

  // ---- field evaluations ----

  /** Eight numbers in 24 bytes, and three words that are not published. */
  predicate ResultStands(f: FieldEvaluation.Field, buf: seq<byte>, pos: nat) {
    && Holds(buf, pos, 2, f.msg.versionNumber) && Holds(buf, pos + 2, 1, f.msg.fieldIndex)
    && Holds(buf, pos + 3, 4, f.msg.sysCount)
    && Holds(buf, pos + 7, 4, f.msg.distScaleFactor) && Holds(buf, pos + 11, 4, f.msg.distScaleOffset)
    && Holds(buf, pos + 15, 4, f.msg.angleScaleFactor) && Holds(buf, pos + 19, 4, f.msg.angleScaleOffset)
    && Holds(buf, pos + 23, 1, f.msg.fieldResultMrs) && pos + 30 <= |buf|
  }

  /** Where a field has its status: an LMS5xx leaves 15 more bytes behind words that are not all zero. */
  function StatusAt(buf: seq<byte>, pos: nat, lms5xx: bool): nat
    requires pos + 30 <= |buf|
  {
    pos + 30 + if lms5xx && buf[pos + 24..pos + 30] != [0, 0, 0, 0, 0, 0] then 15 else 0
  }

  predicate FieldStands(f: FieldEvaluation.Field, buf: seq<byte>, pos: nat, lms5xx: bool) {
    ResultStands(f, buf, pos) && StatusStands(f.msg.timeState, f.msg.time, buf, StatusAt(buf, pos, lms5xx))
  }

  /** Where the next field starts. */
  function FieldEnd(f: FieldEvaluation.Field, buf: seq<byte>, pos: nat, lms5xx: bool): nat
    requires pos + 30 <= |buf|
  {
    StatusAt(buf, pos, lms5xx) + if f.msg.timeState > 0 then 13 else 2
  }

  lemma WordZero(a: byte, b: byte)
    ensures Be([a, b]) == 0 <==> a == 0 && b == 0
  {
    assert Be([a]) == a && [a, b][..1] == [a];
  }

  lemma ZeroWords(buf: seq<byte>, pos: nat, words: seq<nat>)
    requires |words| == 3 && pos + 6 <= |buf|
    requires Holds(buf, pos, 2, words[0]) && Holds(buf, pos + 2, 2, words[1]) && Holds(buf, pos + 4, 2, words[2])
    ensures words[0] == 0 && words[1] == 0 && words[2] == 0 <==> buf[pos..pos + 6] == [0, 0, 0, 0, 0, 0]
  {
    assert buf[pos..pos + 2] == [buf[pos], buf[pos + 1]];
    assert buf[pos + 2..pos + 4] == [buf[pos + 2], buf[pos + 3]];
    assert buf[pos + 4..pos + 6] == [buf[pos + 4], buf[pos + 5]];
    var s := buf[pos..pos + 6];
    assert s == [buf[pos], buf[pos + 1], buf[pos + 2], buf[pos + 3], buf[pos + 4], buf[pos + 5]];
    WordZero(buf[pos], buf[pos + 1]);
    WordZero(buf[pos + 2], buf[pos + 3]);
    WordZero(buf[pos + 4], buf[pos + 5]);
  }

  lemma ResultHolds(f: FieldEvaluation.Field, buf: seq<byte>, pos: nat)
    requires Fits(FieldEvaluation.DUMMY_WIDTHS, f.dummies)
    requires At(buf, pos, Put(FieldEvaluation.RESULT_WIDTHS, FieldEvaluation.ResultWords(f.msg)))
    requires At(buf, pos + |Put(FieldEvaluation.RESULT_WIDTHS, FieldEvaluation.ResultWords(f.msg))|,
                Put(FieldEvaluation.DUMMY_WIDTHS, f.dummies))
    ensures |Put(FieldEvaluation.RESULT_WIDTHS, FieldEvaluation.ResultWords(f.msg))| == 24
    ensures |Put(FieldEvaluation.DUMMY_WIDTHS, f.dummies)| == 6
    ensures ResultStands(f, buf, pos)
    ensures f.dummies[0] == 0 && f.dummies[1] == 0 && f.dummies[2] == 0
            <==> buf[pos + 24..pos + 30] == [0, 0, 0, 0, 0, 0]
  {
    hide Put, Holds, At;
    var off, at := [0, 2, 3, 7, 11, 15, 19, 23, 24], [0, 2, 4, 6];
    PutHolds(buf, pos, FieldEvaluation.RESULT_WIDTHS, FieldEvaluation.ResultWords(f.msg), off);
    assert off[1] == 2 && off[2] == 3 && off[3] == 7 && off[4] == 11 && off[5] == 15 && off[6] == 19 && off[7] == 23;
    PutHolds(buf, pos + 24, FieldEvaluation.DUMMY_WIDTHS, f.dummies, at);
    assert at[1] == 2 && at[2] == 4;
    AtSlice(buf, pos + 24, Put(FieldEvaluation.DUMMY_WIDTHS, f.dummies));
    ZeroWords(buf, pos + 24, f.dummies);
  }

  lemma FieldHolds(f: FieldEvaluation.Field, buf: seq<byte>, pos: nat, lms5xx: bool)
    requires FieldEvaluation.FieldOk(f, lms5xx) && At(buf, pos, FieldEvaluation.PutField(f))
    ensures FieldStands(f, buf, pos, lms5xx)
    ensures pos + |FieldEvaluation.PutField(f)| == FieldEnd(f, buf, pos, lms5xx)
  {
    hide Put, At, Holds, PutOptional, ResultStands, StatusStands;
    var a := Put(FieldEvaluation.RESULT_WIDTHS, FieldEvaluation.ResultWords(f.msg));
    var d := Put(FieldEvaluation.DUMMY_WIDTHS, f.dummies);
    AtFour(buf, pos, a, d, f.extra, PutOptional(f.msg.timeState, TIME_WIDTHS, TimeWords(f.msg.time)));
    ResultHolds(f, buf, pos);
    AtSlice(buf, pos + |a|, d);
    StatusHolds(f.msg.timeState, f.msg.time, buf, pos + 30 + |f.extra|);
  }

  /** The fields stand one behind the other from a position on; end is where the last one ends. */
  predicate FieldsStand(fs: seq<FieldEvaluation.Field>, buf: seq<byte>, pos: nat, lms5xx: bool, end: nat)
    decreases |fs|
  {
    if fs == [] then end == pos
    else
      && FieldStands(fs[0], buf, pos, lms5xx)
      && FieldsStand(fs[1..], buf, FieldEnd(fs[0], buf, pos, lms5xx), lms5xx, end)
  }

  lemma {:induction false} FirstField(fs: seq<FieldEvaluation.Field>)
    requires fs != [] && forall i :: 0 <= i < |fs| ==> |fs[i].dummies| == 3
    ensures FieldEvaluation.PutFields(fs) == FieldEvaluation.PutField(fs[0]) + FieldEvaluation.PutFields(fs[1..])
    decreases |fs|
  {
    hide FieldEvaluation.PutField;
    var front := fs[..|fs| - 1];
    if front != [] {
      FirstField(front);
      assert front[1..] == fs[1..][..|fs| - 2];
    }
  }

  lemma {:induction false} FieldsHold(fs: seq<FieldEvaluation.Field>, buf: seq<byte>, pos: nat, lms5xx: bool)
    requires FieldEvaluation.FieldsOk(fs, lms5xx) && At(buf, pos, FieldEvaluation.PutFields(fs))
    ensures FieldsStand(fs, buf, pos, lms5xx, pos + |FieldEvaluation.PutFields(fs)|)
    decreases |fs|
  {
    hide At, FieldEvaluation.PutField, FieldStands, FieldEnd;
    if fs != [] {
      FirstField(fs);
      AtConcat(buf, pos, FieldEvaluation.PutField(fs[0]), FieldEvaluation.PutFields(fs[1..]));
      FieldHolds(fs[0], buf, pos, lms5xx);
      FieldsHold(fs[1..], buf, pos + |FieldEvaluation.PutField(fs[0])|, lms5xx);
    }
  }

  /**
   Of every accepted field evaluation telegram: the number of fields stands at byte 19, every field has its numbers at
   their offsets, and the checksum is the only byte behind the last field.
   */
  lemma EvaluationLayout(buf: seq<byte>, lms5xx: bool)
    requires FieldEvaluation.Accepts(buf, lms5xx)
    ensures var fs := FieldEvaluation.ReadAll(buf, lms5xx).value;
            Holds(buf, 19, 2, |fs|) && |fs| > 0 && FieldsStand(fs, buf, 21, lms5xx, |buf| - 1)
  {
    hide At, Be, ToBe, FieldEvaluation.PutFields, FieldEvaluation.GetFields, FieldsStand;
    var n := FieldEvaluation.Number(buf);
    FieldEvaluation.PutGetFields(buf, Reader(21, true), n, lms5xx);
    FieldsHold(FieldEvaluation.ReadAll(buf, lms5xx).value, buf, 21, lms5xx);
  }

  // ---- output states ----

  /** Version, counter, states of five bytes each, and the status, between 27 bytes of head and the checksum. */
  predicate BlockStands(b: OutputStates.Block, buf: seq<byte>) {
    && Holds(buf, 27, 2, b.versionNumber) && Holds(buf, 29, 4, b.systemCounter)
    && (forall i: nat :: i < |b.states| ==>
          Holds(buf, 33 + 5 * i, 1, b.states[i].state) && Holds(buf, 34 + 5 * i, 4, b.states[i].count))
    && StatusStands(b.timeState, b.time, buf, 33 + 5 * |b.states|)
    && |buf| == 34 + 5 * |b.states| + if b.timeState > 0 then 13 else 2
  }

  lemma {:induction false} StatesHold(ss: seq<OutputStates.State>, buf: seq<byte>, pos: nat)
    requires At(buf, pos, OutputStates.PutStates(ss))
    ensures |OutputStates.PutStates(ss)| == 5 * |ss|
    ensures forall i: nat :: i < |ss| ==>
              Holds(buf, pos + 5 * i, 1, ss[i].state) && Holds(buf, pos + 5 * i + 1, 4, ss[i].count)
  {
    hide At, Put, Holds;
    if ss != [] {
      var front, last := ss[..|ss| - 1], ss[|ss| - 1];
      var words, off := OutputStates.StateWords(last), [0, 1, 5];
      AtConcat(buf, pos, OutputStates.PutStates(front), Put(OutputStates.STATE_WIDTHS, words));
      StatesHold(front, buf, pos);
      PutHolds(buf, pos + 5 * |front|, OutputStates.STATE_WIDTHS, words, off);
      assert off[1] == 1;
      forall i: nat | i < |front|
        ensures Holds(buf, pos + 5 * i, 1, ss[i].state) && Holds(buf, pos + 5 * i + 1, 4, ss[i].count)
      {
        assert front[i] == ss[i];
      }
    }
  }

  /** Of every accepted output state telegram: the block read from it is what its bytes say. */
  lemma StatesLayout(buf: seq<byte>)
    requires OutputStates.Accepts(buf)
    ensures BlockStands(OutputStates.GetBlock(buf, OutputStates.Count(buf)).value, buf)
  {
    hide At, Put, Holds, PutOptional, StatusStands, OutputStates.PutStates, OutputStates.GetBlock, OutputStates.Accepts,
         OutputStates.Count;
    var b := OutputStates.GetBlock(buf, OutputStates.Count(buf)).value;
    OutputStates.AcceptedIsBlock(buf);
    var h, s := Put(OutputStates.HEAD_WIDTHS, [b.versionNumber, b.systemCounter]), OutputStates.PutStates(b.states);
    AcceptedLength(buf);
    AtMiddle(buf[..27], OutputStates.PutBlock(b), [buf[|buf| - 1]]);
    AtThreeParts(buf, h, s, PutOptional(b.timeState, TIME_WIDTHS, TimeWords(b.time)));
    var off := [0, 2, 6];
    PutHolds(buf, 27, OutputStates.HEAD_WIDTHS, [b.versionNumber, b.systemCounter], off);
    assert off[1] == 2;
    StatesHold(b.states, buf, 33);
    StatusHolds(b.timeState, b.time, buf, 33 + 5 * |b.states|);
  }

  lemma AcceptedLength(buf: seq<byte>)
    requires OutputStates.Accepts(buf)
    ensures |buf| > 27 && |buf[..27]| == 27
  {
  }

  lemma AtThreeParts(buf: seq<byte>, a: seq<byte>, b: seq<byte>, c: seq<byte>)
    requires At(buf, 27, a + b + c)
    ensures At(buf, 27, a) && At(buf, 27 + |a|, b) && At(buf, 27 + |a| + |b|, c)
  {
    hide At;
    AtConcat(buf, 27, a + b, c);
    AtConcat(buf, 27, a, b);
  }

  /** Published are exactly the states 0 and 1, each with its own count, as often and in the order they come. */
  lemma {:induction false} KeptExactly(ss: seq<OutputStates.State>)
    ensures forall s :: multiset(OutputStates.Kept(ss))[s] == if s.state in {0, 1} then multiset(ss)[s] else 0
    ensures forall n: nat :: n <= |ss| ==> OutputStates.Kept(ss[..n]) <= OutputStates.Kept(ss)
  {
    if ss != [] {
      var front, last := ss[..|ss| - 1], ss[|ss| - 1];
      KeptExactly(front);
      assert ss == front + [last];
      forall n: nat | n <= |ss|
        ensures OutputStates.Kept(ss[..n]) <= OutputStates.Kept(ss)
      {
        if n < |ss| {
          assert ss[..n] == front[..n];
        } else {
          assert ss[..n] == ss;
        }
      }
    }
  }
}
