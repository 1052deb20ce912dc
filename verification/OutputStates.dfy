/** LIDoutputstate telegrams: two layouts told apart by their length and a status word read in advance. */
module OutputStates {
  import opened Bytes
  import opened Fields
  import opened Timestamps

  /** Bytes before the block: STX word, length, "sSN LIDoutputstate ". */
  const START: nat := 27
  const HEAD_WIDTHS: seq<width> := [2, 4]
  const STATE_WIDTHS: seq<width> := [1, 4]

  datatype State = State(state: u8, count: u32)

  /** What the telegram says. */
  datatype Block = Block(versionNumber: u16, systemCounter: u32, states: seq<State>, timeState: u16, time: Time)

  /** What the driver publishes. */
  datatype OutputStateMsg = OutputStateMsg(versionNumber: u16, systemCounter: u32,
                                           outputState: seq<u8>, outputCount: seq<u32>, timeState: u16, time: Time)

  /** Thrown: a negative number of states is passed to reserve. */
  datatype Outcome = Parsed | Rejected | Thrown

  // ---- states ----

  function StateWords(s: State): (vs: seq<nat>)
    ensures Fits(STATE_WIDTHS, vs)
  {
    [s.state, s.count]
  }

  function PutStates(ss: seq<State>): seq<byte> {
    if ss == [] then [] else PutStates(ss[..|ss| - 1]) + Put(STATE_WIDTHS, StateWords(ss[|ss| - 1]))
  }

  function GetState(buf: seq<byte>, r: Reader): Read<State> {
    var g := Get(buf, r, STATE_WIDTHS);
    GetFits(buf, r, STATE_WIDTHS);
    assert STATE_WIDTHS[0] == 1 && STATE_WIDTHS[1] == 4;
    Read(State(g.value[0], g.value[1]), g.reader)
  }

  function GetStates(buf: seq<byte>, r: Reader, n: nat): (g: Read<seq<State>>)
    ensures |g.value| == n
  {
    if n == 0 then Read([], r)
    else
      var front := GetStates(buf, r, n - 1);
      var last := GetState(buf, front.reader);
      Read(front.value + [last.value], last.reader)
  }

  /** Only the states "not active" and "active" are published, in their order. */
  function Kept(ss: seq<State>): seq<State> {
    if ss == [] then []
    else Kept(ss[..|ss| - 1]) + if ss[|ss| - 1].state <= 1 then [ss[|ss| - 1]] else []
  }

  function StatesOf(ss: seq<State>): (r: seq<u8>)
    ensures |r| == |ss|
  {
    seq(|ss|, i requires 0 <= i < |ss| => ss[i].state)
  }

  function CountsOf(ss: seq<State>): (r: seq<u32>)
    ensures |r| == |ss|
  {
    seq(|ss|, i requires 0 <= i < |ss| => ss[i].count)
  }

  // ---- the block ----

  function PutBlock(b: Block): seq<byte> {
    Put(HEAD_WIDTHS, [b.versionNumber, b.systemCounter]) + PutStates(b.states)
    + PutOptional(b.timeState, TIME_WIDTHS, TimeWords(b.time))
  }

  function GetBlock(buf: seq<byte>, n: nat): Read<Block> {
    var h := Get(buf, Reader(START, true), HEAD_WIDTHS);
    var s := GetStates(buf, h.reader, n);
    var t := GetOptional(buf, s.reader, TIME_WIDTHS);
    GetFits(buf, Reader(START, true), HEAD_WIDTHS);
    GetOptionalFits(buf, s.reader, TIME_WIDTHS);
    assert HEAD_WIDTHS[0] == 2 && HEAD_WIDTHS[1] == 4;
    Read(Block(h.value[0], h.value[1], s.value, t.value.flag, TimeOf(t.value.words)), t.reader)
  }

  /** The message published for a block; msg is the message before. */
  function View(b: Block, msg: OutputStateMsg): OutputStateMsg {
    var kept := Kept(b.states);
    OutputStateMsg(b.versionNumber, b.systemCounter, msg.outputState + StatesOf(kept), msg.outputCount + CountsOf(kept),
                   b.timeState, if b.timeState > 0 then b.time else msg.time)
  }

  // ---- the two layouts ----

  /** No timestamp: 8 + 5 * n bytes of parameters, a zero status in the last two. */
  predicate Untimed(buf: seq<byte>) {
    |buf| >= START + 9 && (|buf| - START - 9) % 5 == 0 && Be(buf[|buf| - 3..|buf| - 1]) == 0
  }

  /** Timestamp: 19 + 5 * n bytes of parameters, a positive status before the last eleven. */
  predicate Timed(buf: seq<byte>) {
    |buf| >= START + 20 && (|buf| - START - 20) % 5 == 0 && Be(buf[|buf| - 14..|buf| - 12]) > 0
  }

  predicate Accepts(buf: seq<byte>) {
    Untimed(buf) || Timed(buf)
  }

  /** The number of states an accepted telegram has. */
  function Count(buf: seq<byte>): nat
    requires Accepts(buf)
  {
    if Untimed(buf) then (|buf| - START - 9) / 5 else (|buf| - START - 20) / 5
  }

  /** Nine or fourteen bytes of parameters pass for a timestamp behind a negative number of states. */
  predicate NegativeCount(buf: seq<byte>) {
    (|buf| == START + 10 || |buf| == START + 15) && Be(buf[|buf| - 14..|buf| - 12]) > 0
  }

  /** The layouts exclude each other by length alone. */
  lemma LayoutsExclusive(buf: seq<byte>)
    ensures !(Untimed(buf) && Timed(buf)) && !(Accepts(buf) && NegativeCount(buf))
  {
  }

  lemma Sizes()
    ensures Size(HEAD_WIDTHS) == 6 && Size(STATE_WIDTHS) == 5 && Size(FLAG_WIDTHS) == 2 && Size(TIME_WIDTHS) == 11
  {
    hide Size;
    TimeSize();
    SizeMore([], 2);
    SizeMore([2], 4);
    SizeMore([], 1);
    SizeMore([1], 4);
    assert [2] + [4] == HEAD_WIDTHS && [1] + [4] == STATE_WIDTHS;
    assert [] + [2] == FLAG_WIDTHS && [] + [1] == [1];
  }

  // ---- states on the wire ----

  lemma StateSize(buf: seq<byte>, pos: nat)
    requires pos + 5 <= |buf|
    ensures GetState(buf, Reader(pos, true)).reader == Reader(pos + 5, true)
  {
    Sizes();
    GetSize(buf, pos, STATE_WIDTHS);
  }

  lemma {:induction false} StatesSize(buf: seq<byte>, pos: nat, n: nat)
    requires pos + 5 * n <= |buf|
    ensures GetStates(buf, Reader(pos, true), n).reader == Reader(pos + 5 * n, true)
  {
    hide GetState;
    if n > 0 {
      StatesSize(buf, pos, n - 1);
      StateSize(buf, pos + 5 * (n - 1));
    }
  }

  lemma StatesStop(buf: seq<byte>, r: Reader, n: nat)
    requires GetStates(buf, r, n).reader.ok
    ensures r.ok
  {
    hide Get;
    if n > 0 {
      var front := GetStates(buf, r, n - 1);
      GetFits(buf, front.reader, STATE_WIDTHS);
      StatesStop(buf, r, n - 1);
    }
  }

  lemma GetPutState(buf: seq<byte>, r: Reader, s: State)
    requires At(buf, r.pos, Put(STATE_WIDTHS, StateWords(s)))
    ensures GetState(buf, r) == Read(s, Reader(r.pos + |Put(STATE_WIDTHS, StateWords(s))|, r.ok))
  {
    hide At, Put, Get;
    GetPut(buf, r, STATE_WIDTHS, StateWords(s));
  }

  lemma {:induction false} GetPutStates(buf: seq<byte>, r: Reader, ss: seq<State>)
    requires At(buf, r.pos, PutStates(ss))
    ensures GetStates(buf, r, |ss|) == Read(ss, Reader(r.pos + |PutStates(ss)|, r.ok))
  {
    hide At, Put, GetState;
    if ss != [] {
      var front, last := ss[..|ss| - 1], ss[|ss| - 1];
      AtConcat(buf, r.pos, PutStates(front), Put(STATE_WIDTHS, StateWords(last)));
      GetPutStates(buf, r, front);
      GetPutState(buf, GetStates(buf, r, |front|).reader, last);
      assert front + [last] == ss;
    }
  }

  lemma PutGetState(buf: seq<byte>, r: Reader)
    requires GetState(buf, r).reader.ok
    ensures var g := GetState(buf, r);
            && r.ok && At(buf, r.pos, Put(STATE_WIDTHS, StateWords(g.value)))
            && g.reader.pos == r.pos + |Put(STATE_WIDTHS, StateWords(g.value))|
  {
    hide At, Put, Get;
    GetWithin(buf, r, STATE_WIDTHS);
    PutGet(buf, r, STATE_WIDTHS);
    assert Get(buf, r, STATE_WIDTHS).value == StateWords(GetState(buf, r).value);
  }

  lemma {:induction false} PutGetStates(buf: seq<byte>, r: Reader, n: nat)
    requires GetStates(buf, r, n).reader.ok && r.pos <= |buf|
    ensures var g := GetStates(buf, r, n);
            && At(buf, r.pos, PutStates(g.value)) && g.reader.pos == r.pos + |PutStates(g.value)|
  {
    hide At, Put, GetState;
    if n == 0 {
      AtEmpty(buf, r.pos);
    } else {
      var front := GetStates(buf, r, n - 1);
      var last := GetState(buf, front.reader);
      PutGetState(buf, front.reader);
      PutGetStates(buf, r, n - 1);
      AtConcat(buf, r.pos, PutStates(front.value), Put(STATE_WIDTHS, StateWords(last.value)));
      Front(front.value, last.value);
    }
  }

  lemma {:induction false} PutStatesLength(ss: seq<State>)
    ensures |PutStates(ss)| == 5 * |ss|
  {
    hide Put;
    Sizes();
    if ss != [] {
      PutStatesLength(ss[..|ss| - 1]);
      PutLength(STATE_WIDTHS, StateWords(ss[|ss| - 1]));
    }
  }

  // ---- a block of n states ----

  lemma FlagAt(buf: seq<byte>, pos: nat)
    requires pos + 2 <= |buf|
    ensures Get(buf, Reader(pos, true), FLAG_WIDTHS) == Read([Be(buf[pos..pos + 2])], Reader(pos + 2, true))
  {
    hide Be;
    var r := Reader(pos, true);
    assert Get(buf, r, []) == Read([], r);
    assert FLAG_WIDTHS == [] + [2];
    GetMore(buf, r, [], 2);
    var value := GetOne(buf, r, 2).value;
    assert [] + [value] == [value];
  }

  /** Reading a block of n states: the status it finds, and where it ends. */
  lemma BlockSize(buf: seq<byte>, n: nat)
    requires START + 8 + 5 * n <= |buf|
    ensures var pos := START + 6 + 5 * n;
            var g := GetBlock(buf, n);
            && Get(buf, Reader(START, true), HEAD_WIDTHS).reader == Reader(START + 6, true)
            && GetStates(buf, Reader(START + 6, true), n).reader == Reader(pos, true)
            && Get(buf, Reader(pos, true), FLAG_WIDTHS).reader == Reader(pos + 2, true)
            && g.value.timeState == Be(buf[pos..pos + 2])
            && (g.value.timeState == 0 ==> g.reader == Reader(pos + 2, true))
            && (g.value.timeState > 0 && pos + 13 <= |buf| ==> g.reader == Reader(pos + 13, true))
  {
    hide Be, Get, GetStates;
    Sizes();
    GetSize(buf, START, HEAD_WIDTHS);
    StatesSize(buf, START + 6, n);
    FlagAt(buf, START + 6 + 5 * n);
    if START + 6 + 5 * n + 13 <= |buf| {
      GetSize(buf, START + 6 + 5 * n + 2, TIME_WIDTHS);
    }
  }

  /** The last two bytes of the parameters, or those before a timestamp, are where the block has its status. */
  lemma AcceptedStatus(buf: seq<byte>)
    requires Accepts(buf)
    ensures var n := Count(buf);
            && START + 8 + 5 * n <= |buf|
            && (Untimed(buf) ==> |buf| == START + 9 + 5 * n && GetBlock(buf, n).value.timeState == 0)
            && (Timed(buf) ==> |buf| == START + 20 + 5 * n && GetBlock(buf, n).value.timeState > 0)
            && GetBlock(buf, n).reader == Reader(|buf| - 1, true)
  {
    hide Be, GetBlock, GetStates, Get;
    BlockSize(buf, Count(buf));
  }

  /** Everything between the head and the checksum of an accepted telegram is the block read from it. */
  lemma AcceptedIsBlock(buf: seq<byte>)
    requires Accepts(buf)
    ensures var b := GetBlock(buf, Count(buf)).value;
            buf == buf[..START] + PutBlock(b) + [buf[|buf| - 1]]
  {
    hide At, Get, Put, GetStates, PutStates, PutOptional, GetOptional, Untimed, Timed, Count;
    var n := Count(buf);
    AcceptedStatus(buf);
    BlockSize(buf, n);
    var r := Reader(START, true);
    var h := Get(buf, r, HEAD_WIDTHS);
    var s := GetStates(buf, h.reader, n);
    var t := GetOptional(buf, s.reader, TIME_WIDTHS);
    StatesStop(buf, h.reader, n);
    GetWithin(buf, r, HEAD_WIDTHS);
    PutGet(buf, r, HEAD_WIDTHS);
    PutGetStates(buf, h.reader, n);
    PutGetOptional(buf, s.reader, TIME_WIDTHS);
    var b := GetBlock(buf, n).value;
    assert h.value == [b.versionNumber, b.systemCounter];
    AtConcat(buf, START, Put(HEAD_WIDTHS, h.value), PutStates(s.value));
    AtConcat(buf, START, Put(HEAD_WIDTHS, h.value) + PutStates(s.value),
             PutOptional(t.value.flag, TIME_WIDTHS, t.value.words));
    AtToEnd(buf, START, PutBlock(b));
  }

  /** A block between any head and checksum is accepted and read back, whatever its states and timestamp. */
  lemma BlockIsAccepted(head: seq<byte>, b: Block, crc: byte)
    requires |head| == START && (b.timeState == 0 ==> b.time == NO_TIME)
    ensures var buf := head + PutBlock(b) + [crc];
            Accepts(buf) && Count(buf) == |b.states| && GetBlock(buf, |b.states|).value == b
  {
    hide Be, At, Get, Put, GetStates, PutStates, PutOptional, GetOptional;
    var buf, n := head + PutBlock(b) + [crc], |b.states|;
    BlockLength(b);
    BlockReadBack(head, b, crc);
    hide GetBlock, PutBlock;
    BlockSize(buf, n);
  }

  lemma BlockLength(b: Block)
    ensures |PutBlock(b)| == (if b.timeState > 0 then 19 else 8) + 5 * |b.states|
  {
    hide Put, PutStates;
    Sizes();
    PutLength(HEAD_WIDTHS, [b.versionNumber, b.systemCounter]);
    PutStatesLength(b.states);
    PutLength(FLAG_WIDTHS, [b.timeState]);
    PutLength(TIME_WIDTHS, TimeWords(b.time));
  }

  lemma BlockReadBack(head: seq<byte>, b: Block, crc: byte)
    requires |head| == START && (b.timeState == 0 ==> b.time == NO_TIME)
    ensures GetBlock(head + PutBlock(b) + [crc], |b.states|).value == b
  {
    hide At, Get, Put, GetStates, PutStates, PutOptional, GetOptional;
    var buf, r := head + PutBlock(b) + [crc], Reader(START, true);
    var h, s := Put(HEAD_WIDTHS, [b.versionNumber, b.systemCounter]), PutStates(b.states);
    var t := PutOptional(b.timeState, TIME_WIDTHS, TimeWords(b.time));
    AtMiddle(head, PutBlock(b), [crc]);
    AtConcat(buf, START, h + s, t);
    AtConcat(buf, START, h, s);
    GetPut(buf, r, HEAD_WIDTHS, [b.versionNumber, b.systemCounter]);
    GetPutStates(buf, Reader(START + |h|, true), b.states);
    GetPutOptional(buf, Reader(START + |h| + |s|, true), b.timeState, TIME_WIDTHS, TimeWords(b.time));
    assert TimeWords(NO_TIME) == Zeros(7);
  }

  /**
   The parser accepts a telegram if and only if the bytes between its head and its checksum are a block;
   the layouts with and without timestamp can never be confused, and no byte is left over.
   */
  lemma AcceptsExactlyBlocks(buf: seq<byte>)
    ensures Accepts(buf)
            <==> |buf| > START && exists b: Block :: buf[START..|buf| - 1] == PutBlock(b)
  {
    hide PutBlock, GetBlock, Untimed, Timed, Count;
    if Accepts(buf) {
      var b := GetBlock(buf, Count(buf)).value;
      AcceptedStatus(buf);
      AcceptedIsBlock(buf);
      assert buf[START..|buf| - 1] == PutBlock(b);
    }
    if |buf| > START && exists b: Block :: buf[START..|buf| - 1] == PutBlock(b) {
      var b: Block :| buf[START..|buf| - 1] == PutBlock(b);
      var c := if b.timeState == 0 then b.(time := NO_TIME) else b;
      SameBlock(b, c);
      BlockIsAccepted(buf[..START], c, buf[|buf| - 1]);
      assert buf == buf[..START] + buf[START..|buf| - 1] + [buf[|buf| - 1]];
    }
  }

  lemma SameBlock(b: Block, c: Block)
    requires c == if b.timeState == 0 then b.(time := NO_TIME) else b
    ensures PutBlock(b) == PutBlock(c)
  {
    hide Put, PutStates;
  }

  // ---- the parser ----

  lemma BeTwo(a: byte, b: byte)
    ensures Be([a, b]) == 256 * a + b
  {
    assert Be([a]) == a;
    assert [a, b][..1] == [a];
  }

  method StatusAt(buf: seq<byte>, pos: nat) returns (status: nat)
    requires pos + 2 <= |buf|
    ensures status == Be(buf[pos..pos + 2])
  {
    BeTwo(buf[pos], buf[pos + 1]);
    assert buf[pos..pos + 2] == [buf[pos], buf[pos + 1]];
    var high: nat := buf[pos];
    status := 256 * high + buf[pos + 1];
  }

  /** Division of C++, towards zero. */
  function Quotient(a: int, b: nat): int
    requires b > 0
  {
    if a >= 0 then a / b else -((-a) / b)
  }

  /** Decides the layout; the number of states may come out negative. */
  method Layout(buf: seq<byte>) returns (ok: bool, states: int, status: nat)
    requires |buf| >= START + 9
    ensures ok == (Accepts(buf) || NegativeCount(buf))
    ensures Accepts(buf) ==> states == Count(buf) && (status > 0 <==> Timed(buf))
    ensures Accepts(buf) ==> status == GetBlock(buf, Count(buf)).value.timeState
    ensures NegativeCount(buf) ==> states < 0
  {
    hide Be, GetBlock;
    var parameters := |buf| - START - 1;
    status := StatusAt(buf, |buf| - 3);
    states := Quotient(parameters - 6 - 2, 5);
    ok := parameters == 6 + states * 5 + 2 && status == 0;
    if !ok {
      status := StatusAt(buf, |buf| - 14);
      states := Quotient(parameters - 6 - 2 - 11, 5);
      ok := parameters == 6 + states * 5 + 2 + 11 && status > 0;
    }
    if Accepts(buf) {
      AcceptedStatus(buf);
      BlockSize(buf, Count(buf));
    }
  }

  /** The message with the published ones of some states appended. */
  function Published(msg: OutputStateMsg, ss: seq<State>): OutputStateMsg {
    msg.(outputState := msg.outputState + StatesOf(Kept(ss)), outputCount := msg.outputCount + CountsOf(Kept(ss)))
  }

  /** Reads one state and publishes it unless it is "not used". */
  method ReadState(buf: seq<byte>, start: nat, output: OutputStateMsg, ghost msg: OutputStateMsg,
                   ghost seen: seq<State>)
    returns (next: OutputStateMsg, pos: nat, ok: bool)
    requires start + 5 <= |buf| && output == Published(msg, seen)
    ensures ok && pos == start + 5
    ensures next == Published(msg, seen + [GetState(buf, Reader(start, true)).value])
  {
    hide Get, Published;
    StateSize(buf, start);
    ghost var s := GetState(buf, Reader(start, true)).value;
    PublishedMore(msg, seen, s);
    next := output;
    var values;
    values, pos, ok := ReadChain(buf, start, STATE_WIDTHS);
    if ok && (values[0] == 0 || values[0] == 1) {
      next := output.(outputState := output.outputState + [values[0]], outputCount := output.outputCount + [values[1]]);
    }
  }

  method ReadStates(buf: seq<byte>, start: nat, number: nat, msg: OutputStateMsg)
    returns (output: OutputStateMsg, pos: nat, ok: bool)
    requires start + 5 * number <= |buf|
    ensures ok && pos == start + 5 * number
    ensures output == Published(msg, GetStates(buf, Reader(start, true), number).value)
  {
    hide GetState, Published;
    PublishedNone(msg);
    output, pos, ok := msg, start, true;
    for i := 0 to number
      invariant ok && pos == start + 5 * i
      invariant output == Published(msg, GetStates(buf, Reader(start, true), i).value)
    {
      StatesSize(buf, start, i);
      output, pos, ok := ReadState(buf, pos, output, msg, GetStates(buf, Reader(start, true), i).value);
      if !ok {
        return;
      }
    }
  }

  lemma PublishedNone(msg: OutputStateMsg)
    ensures Published(msg, []) == msg
  {
  }

  lemma PublishedMore(msg: OutputStateMsg, seen: seq<State>, s: State)
    ensures var p, next := Published(msg, seen), Published(msg, seen + [s]);
            next == if s.state <= 1
                    then p.(outputState := p.outputState + [s.state], outputCount := p.outputCount + [s.count])
                    else p
  {
    hide Kept, StatesOf, CountsOf;
    KeptMore(seen, s);
    if s.state > 1 {
      assert Kept(seen) + [] == Kept(seen);
    }
  }

  lemma KeptMore(ss: seq<State>, s: State)
    ensures Kept(ss + [s]) == Kept(ss) + if s.state <= 1 then [s] else []
    ensures s.state <= 1 ==>
              StatesOf(Kept(ss + [s])) == StatesOf(Kept(ss)) + [s.state]
              && CountsOf(Kept(ss + [s])) == CountsOf(Kept(ss)) + [s.count]
  {
    Front(ss, s);
  }

  /** parseLIDoutputstateMsg: once a layout fits, none of the later exits is taken. */
  method ParseLIDoutputstateMsg(receiveBuffer: seq<byte>, useBinaryProtocol: bool, msg: OutputStateMsg)
    returns (outcome: Outcome, output: OutputStateMsg)
    ensures outcome == if !useBinaryProtocol then Rejected
                       else if Accepts(receiveBuffer) then Parsed
                       else if NegativeCount(receiveBuffer) then Thrown
                       else Rejected
    ensures outcome == Parsed ==> output == View(GetBlock(receiveBuffer, Count(receiveBuffer)).value, msg)
  {
    hide Be, Get, GetStates, PutStates;
    output := msg;
    if !useBinaryProtocol {
      return Rejected, output;
    }
    if |receiveBuffer| - START - 1 < 8 {
      return Rejected, output;
    }
    var ok, states, status := Layout(receiveBuffer);
    LayoutsExclusive(receiveBuffer);
    if !ok {
      return Rejected, output;
    }
    if states < 0 {
      return Thrown, output;
    }
    AcceptedStatus(receiveBuffer);
    BlockSize(receiveBuffer, states);
    var head, pos, fits := ReadChain(receiveBuffer, START, HEAD_WIDTHS);
    if !fits {
      return Rejected, output;
    }
    output := output.(versionNumber := head[0], systemCounter := head[1]);
    output, pos, fits := ReadStates(receiveBuffer, pos, states, output);
    if !fits {
      return Rejected, output;
    }
    var flag;
    flag, pos, fits := ReadChain(receiveBuffer, pos, FLAG_WIDTHS);
    if !fits {
      return Rejected, output;
    }
    output := output.(timeState := flag[0]);
    if flag[0] != status {
      return Rejected, output;
    }
    if status > 0 {
      var time;
      time, pos, fits := ReadChain(receiveBuffer, pos, TIME_WIDTHS);
      if !fits {
        return Rejected, output;
      }
      output := output.(time := TimeOf(time));
    }
    outcome := Parsed;
  }
}
