/**
 Runs of fixed-width fields in big-endian telegrams: appended to a vector, and read from a buffer
 by a position that stops moving, and a flag that falls, once a field does not fit.
 */
module Fields {
  import opened Bytes

  type u8 = x: int | 0 <= x < 0x100
  type u16 = x: int | 0 <= x < 0x1_0000
  type u32 = x: int | 0 <= x < 0x1_0000_0000
  type i32 = x: int | -0x8000_0000 <= x < 0x8000_0000

  /** Bit pattern of a signed 32-bit number, and back. */
  function Word(x: i32): u32 {
    if x < 0 then x + 0x1_0000_0000 else x
  }

  function Signed(n: u32): i32 {
    if n < 0x8000_0000 then n else n - 0x1_0000_0000
  }

  /** Field widths in bytes. */
  type width = w: int | w == 1 || w == 2 || w == 4 witness 1

  function Limit(w: width): nat {
    if w == 1 then 0x100 else if w == 2 then 0x1_0000 else 0x1_0000_0000
  }

  lemma LimitIsPow256(w: width)
    ensures Limit(w) == Pow256(w)
  {
    assert Pow256(2) == 256 * Pow256(1);
    assert Pow256(4) == 256 * (256 * Pow256(2));
  }

  ghost predicate Fits(ws: seq<width>, vs: seq<nat>) {
    |vs| == |ws| && forall i :: 0 <= i < |ws| ==> vs[i] < Limit(ws[i])
  }

  /** The serialised fields. */
  function Put(ws: seq<width>, vs: seq<nat>): seq<byte>
    requires |ws| == |vs|
  {
    if ws == [] then [] else Put(ws[..|ws| - 1], vs[..|vs| - 1]) + ToBe(vs[|vs| - 1], ws[|ws| - 1])
  }

  datatype Reader = Reader(pos: nat, ok: bool)

  datatype Read<T> = Read(value: T, reader: Reader)

  function GetOne(buf: seq<byte>, r: Reader, w: width): Read<nat> {
    if r.pos + w <= |buf| then Read(Be(buf[r.pos..r.pos + w]), Reader(r.pos + w, r.ok))
    else Read(0, Reader(r.pos, false))
  }

  /** The fields read one after the other; a field that does not fit keeps its default, zero. */
  function Get(buf: seq<byte>, r: Reader, ws: seq<width>): Read<seq<nat>> {
    if ws == [] then Read([], r)
    else
      var front := Get(buf, r, ws[..|ws| - 1]);
      var last := GetOne(buf, front.reader, ws[|ws| - 1]);
      Read(front.value + [last.value], last.reader)
  }

  lemma GetOneFits(buf: seq<byte>, r: Reader, w: width)
    ensures GetOne(buf, r, w).value < Limit(w)
  {
    LimitIsPow256(w);
    if r.pos + w <= |buf| {
      BeBound(buf[r.pos..r.pos + w]);
    }
  }

  lemma {:induction false} GetFits(buf: seq<byte>, r: Reader, ws: seq<width>)
    ensures Fits(ws, Get(buf, r, ws).value)
    ensures Get(buf, r, ws).reader.ok ==> r.ok
    ensures r.pos <= Get(buf, r, ws).reader.pos
  {
    if ws != [] {
      var front := ws[..|ws| - 1];
      GetFits(buf, r, front);
      GetOneFits(buf, Get(buf, r, front).reader, ws[|ws| - 1]);
    }
  }

  /** Bytes taken by fields of these widths. */
  function Size(ws: seq<width>): nat {
    if ws == [] then 0 else Size(ws[..|ws| - 1]) + ws[|ws| - 1]
  }

  lemma {:induction false} PutLength(ws: seq<width>, vs: seq<nat>)
    requires |ws| == |vs|
    ensures |Put(ws, vs)| == Size(ws)
  {
    hide ToBe;
    if ws != [] {
      PutLength(ws[..|ws| - 1], vs[..|vs| - 1]);
    }
  }

  lemma SizeMore(ws: seq<width>, w: width)
    ensures Size([]) == 0 && Size(ws + [w]) == Size(ws) + w
  {
    Front(ws, w);
  }

  lemma Front<T>(s: seq<T>, e: T)
    ensures (s + [e])[..|s + [e]| - 1] == s && (s + [e])[|s|] == e
  {
  }

  lemma GetMore(buf: seq<byte>, r: Reader, ws: seq<width>, w: width)
    ensures var front := Get(buf, r, ws);
            var last := GetOne(buf, front.reader, w);
            Get(buf, r, ws + [w]) == Read(front.value + [last.value], last.reader)
  {
    hide GetOne;
    Front(ws, w);
  }

  /** Where a read ends that has all its bytes. */
  lemma {:induction false} GetSize(buf: seq<byte>, pos: nat, ws: seq<width>)
    requires pos + Size(ws) <= |buf|
    ensures Get(buf, Reader(pos, true), ws).reader == Reader(pos + Size(ws), true)
  {
    hide Be;
    if ws != [] {
      GetSize(buf, pos, ws[..|ws| - 1]);
    }
  }

  // ---- a byte string at a position ----

  predicate At(buf: seq<byte>, pos: nat, e: seq<byte>) {
    pos + |e| <= |buf| && buf[pos..pos + |e|] == e
  }

  lemma AtEmpty(buf: seq<byte>, pos: nat)
    ensures At(buf, pos, []) <==> pos <= |buf|
  {
  }

  lemma AtConcat(buf: seq<byte>, pos: nat, a: seq<byte>, b: seq<byte>)
    ensures At(buf, pos, a + b) <==> At(buf, pos, a) && At(buf, pos + |a|, b)
  {
    if pos + |a| + |b| <= |buf| {
      var s := buf[pos..pos + |a| + |b|];
      assert s[..|a|] == buf[pos..pos + |a|];
      assert s[|a|..] == buf[pos + |a|..pos + |a| + |b|];
      assert s == s[..|a|] + s[|a|..];
      assert (a + b)[..|a|] == a && (a + b)[|a|..] == b;
    }
  }

  lemma AtFour(buf: seq<byte>, pos: nat, a: seq<byte>, b: seq<byte>, c: seq<byte>, d: seq<byte>)
    ensures At(buf, pos, a + b + c + d)
            <==> && At(buf, pos, a) && At(buf, pos + |a|, b) && At(buf, pos + |a| + |b|, c)
                 && At(buf, pos + |a| + |b| + |c|, d)
  {
    hide At;
    AtConcat(buf, pos, a + b + c, d);
    AtConcat(buf, pos, a + b, c);
    AtConcat(buf, pos, a, b);
  }

  lemma AtSlice(buf: seq<byte>, pos: nat, e: seq<byte>)
    requires At(buf, pos, e)
    ensures pos + |e| <= |buf| && buf[pos..pos + |e|] == e
  {
  }

  lemma AtToEnd(buf: seq<byte>, pos: nat, e: seq<byte>)
    requires At(buf, pos, e) && pos + |e| == |buf| - 1
    ensures buf == buf[..pos] + e + [buf[|buf| - 1]]
  {
  }

  lemma AtMiddle(a: seq<byte>, e: seq<byte>, b: seq<byte>)
    ensures At(a + e + b, |a|, e)
  {
  }

  lemma GetOneAt(buf: seq<byte>, r: Reader, w: width, v: nat)
    requires v < Limit(w) && At(buf, r.pos, ToBe(v, w))
    ensures GetOne(buf, r, w) == Read(v, Reader(r.pos + w, r.ok))
  {
    LimitIsPow256(w);
    BeToBe(v, w);
  }

  /** Reading where fields were put returns them. */
  lemma {:induction false} GetPut(buf: seq<byte>, r: Reader, ws: seq<width>, vs: seq<nat>)
    requires Fits(ws, vs) && At(buf, r.pos, Put(ws, vs))
    ensures Get(buf, r, ws) == Read(vs, Reader(r.pos + |Put(ws, vs)|, r.ok))
  {
    if ws != [] {
      var wf, vf := ws[..|ws| - 1], vs[..|vs| - 1];
      AtConcat(buf, r.pos, Put(wf, vf), ToBe(vs[|vs| - 1], ws[|ws| - 1]));
      GetPut(buf, r, wf, vf);
      GetOneAt(buf, Get(buf, r, wf).reader, ws[|ws| - 1], vs[|vs| - 1]);
      assert vf + [vs[|vs| - 1]] == vs;
    }
  }

  lemma GetWithin(buf: seq<byte>, r: Reader, ws: seq<width>)
    requires ws != [] && Get(buf, r, ws).reader.ok
    ensures Get(buf, r, ws).reader.pos <= |buf|
  {
  }

  lemma PutGetOne(buf: seq<byte>, r: Reader, w: width)
    requires GetOne(buf, r, w).reader.ok
    ensures var g := GetOne(buf, r, w);
            r.ok && g.reader.pos == r.pos + w && At(buf, r.pos, ToBe(g.value, w))
  {
    hide ToBe, Be;
    ToBeBe(buf[r.pos..r.pos + w]);
  }

  lemma PutAppend(ws: seq<width>, w: width, vs: seq<nat>, v: nat)
    requires |ws| == |vs|
    ensures Put(ws + [w], vs + [v]) == Put(ws, vs) + ToBe(v, w)
  {
    hide ToBe;
    Front(ws, w);
    Front(vs, v);
  }

  /** A run of reads that all fit reads exactly the bytes its values serialise to. */
  lemma {:induction false} PutGet(buf: seq<byte>, r: Reader, ws: seq<width>)
    requires Get(buf, r, ws).reader.ok && Get(buf, r, ws).reader.pos <= |buf|
    ensures var g := Get(buf, r, ws);
            && |g.value| == |ws| && r.ok
            && g.reader.pos == r.pos + |Put(ws, g.value)| && At(buf, r.pos, Put(ws, g.value))
  {
    hide GetOne, ToBe, Be, At;
    if ws == [] {
      AtEmpty(buf, r.pos);
    } else {
      var wf, w := ws[..|ws| - 1], ws[|ws| - 1];
      var front := Get(buf, r, wf);
      var last := GetOne(buf, front.reader, w);
      PutGetOne(buf, front.reader, w);
      PutGet(buf, r, wf);
      AtConcat(buf, r.pos, Put(wf, front.value), ToBe(last.value, w));
      PutAppend(wf, w, front.value, last.value);
      assert wf + [w] == ws;
    }
  }

  /** A number stands in w bytes, the most significant one first. */
  predicate Holds(buf: seq<byte>, pos: nat, w: nat, v: nat) {
    pos + w <= |buf| && Be(buf[pos..pos + w]) == v
  }

  /** A signed number stands in four bytes, in two's complement. */
  predicate HoldsSigned(buf: seq<byte>, pos: nat, v: int) {
    pos + 4 <= |buf| && v == Be(buf[pos..pos + 4]) - if buf[pos] < 0x80 then 0 else 0x1_0000_0000
  }

  lemma WordHolds(buf: seq<byte>, pos: nat, x: i32)
    requires Holds(buf, pos, 4, Word(x))
    ensures HoldsSigned(buf, pos, x)
  {
    BeFour(buf[pos], buf[pos + 1], buf[pos + 2], buf[pos + 3]);
    assert buf[pos..pos + 4] == [buf[pos], buf[pos + 1], buf[pos + 2], buf[pos + 3]];
  }

  lemma NumberHolds(buf: seq<byte>, pos: nat, w: width, v: nat)
    requires v < Limit(w) && At(buf, pos, ToBe(v, w))
    ensures Holds(buf, pos, w, v)
  {
    LimitIsPow256(w);
    BeToBe(v, w);
  }

  /** Each field starts where the one before it ends. */
  predicate Consecutive(ws: seq<width>, offsets: seq<nat>) {
    && |offsets| == |ws| + 1 && offsets[0] == 0
    && forall i, j :: 0 <= i < |ws| && j == i + 1 ==> offsets[j] == offsets[i] + ws[i]
  }

  /** Where fields were put, each one stands at its offset. */
  lemma {:induction false} PutHolds(buf: seq<byte>, pos: nat, ws: seq<width>, vs: seq<nat>, offsets: seq<nat>)
    requires Fits(ws, vs) && At(buf, pos, Put(ws, vs)) && Consecutive(ws, offsets)
    ensures |Put(ws, vs)| == offsets[|ws|]
    ensures forall i :: 0 <= i < |ws| ==> Holds(buf, pos + offsets[i], ws[i], vs[i])
  {
    hide ToBe, At, Holds;
    if ws != [] {
      var n := |ws| - 1;
      var wf, vf, of := ws[..n], vs[..n], offsets[..n + 1];
      AtConcat(buf, pos, Put(wf, vf), ToBe(vs[n], ws[n]));
      PutHolds(buf, pos, wf, vf, of);
      NumberHolds(buf, pos + offsets[n], ws[n], vs[n]);
      forall i | 0 <= i < n
        ensures Holds(buf, pos + offsets[i], ws[i], vs[i])
      {
        assert Holds(buf, pos + of[i], wf[i], vf[i]);
      }
    }
  }

  function Zeros(n: nat): seq<nat> {
    seq(n, _ => 0)
  }

  // ---- a validity flag and the fields behind it ----

  const FLAG_WIDTHS: seq<width> := [2]

  function PutOptional(flag: u16, ws: seq<width>, vs: seq<nat>): seq<byte>
    requires |ws| == |vs|
  {
    Put(FLAG_WIDTHS, [flag]) + if flag > 0 then Put(ws, vs) else []
  }

  datatype Optional = Optional(flag: nat, words: seq<nat>)

  function GetOptional(buf: seq<byte>, r: Reader, ws: seq<width>): Read<Optional> {
    var f := Get(buf, r, FLAG_WIDTHS);
    if f.value[0] > 0 then
      var g := Get(buf, f.reader, ws);
      Read(Optional(f.value[0], g.value), g.reader)
    else Read(Optional(f.value[0], Zeros(|ws|)), f.reader)
  }

  lemma GetOptionalFits(buf: seq<byte>, r: Reader, ws: seq<width>)
    ensures var g := GetOptional(buf, r, ws);
            && g.value.flag < Limit(2) && Fits(ws, g.value.words)
            && (g.reader.ok ==> r.ok) && r.pos <= g.reader.pos
            && (g.reader.ok && ws != [] ==> g.reader.pos <= |buf|)
  {
    var f := Get(buf, r, FLAG_WIDTHS);
    GetFits(buf, r, FLAG_WIDTHS);
    GetFits(buf, f.reader, ws);
    if f.reader.ok {
      GetWithin(buf, r, FLAG_WIDTHS);
    }
    if ws != [] && Get(buf, f.reader, ws).reader.ok {
      GetWithin(buf, f.reader, ws);
    }
  }

  lemma GetPutOptional(buf: seq<byte>, r: Reader, flag: u16, ws: seq<width>, vs: seq<nat>)
    requires Fits(ws, vs) && At(buf, r.pos, PutOptional(flag, ws, vs))
    ensures GetOptional(buf, r, ws)
            == Read(Optional(flag, if flag > 0 then vs else Zeros(|ws|)),
                    Reader(r.pos + |PutOptional(flag, ws, vs)|, r.ok))
  {
    AtConcat(buf, r.pos, Put(FLAG_WIDTHS, [flag]), if flag > 0 then Put(ws, vs) else []);
    GetPut(buf, r, FLAG_WIDTHS, [flag]);
    if flag > 0 {
      GetPut(buf, Get(buf, r, FLAG_WIDTHS).reader, ws, vs);
    }
  }

  lemma PutGetOptional(buf: seq<byte>, r: Reader, ws: seq<width>)
    requires GetOptional(buf, r, ws).reader.ok && GetOptional(buf, r, ws).reader.pos <= |buf|
    ensures var g := GetOptional(buf, r, ws);
            && r.ok && g.value.flag < Limit(2) && Fits(ws, g.value.words)
            && (g.value.flag == 0 ==> g.value.words == Zeros(|ws|))
            && At(buf, r.pos, PutOptional(g.value.flag, ws, g.value.words))
            && g.reader.pos == r.pos + |PutOptional(g.value.flag, ws, g.value.words)|
  {
    GetOptionalFits(buf, r, ws);
    var f := Get(buf, r, FLAG_WIDTHS);
    GetFits(buf, f.reader, ws);
    PutGet(buf, r, FLAG_WIDTHS);
    assert f.value == [f.value[0]];
    if f.value[0] > 0 {
      PutGet(buf, f.reader, ws);
      AtConcat(buf, r.pos, Put(FLAG_WIDTHS, f.value), Put(ws, Get(buf, f.reader, ws).value));
    } else {
      assert Put(FLAG_WIDTHS, f.value) + [] == Put(FLAG_WIDTHS, f.value);
    }
  }

  // ---- the driver's loops over such fields ----

  /** Host bytes of a value, swapped in place and appended. */
  method AppendToBuffer(dataBuffer: seq<byte>, value: nat, size: width) returns (result: seq<byte>)
    ensures result == dataBuffer + ToBe(value, size)
  {
    var host := ToLe(value, size);
    var dst := new byte[size](i requires 0 <= i < size => host[i]);
    assert dst[..] == host;
    SwapEndian(dst);
    ReversedToLe(value, size);
    result := dataBuffer + dst[..];
  }

  /** Consecutive appends of fields. */
  method AppendFields(dataBuffer: seq<byte>, ws: seq<width>, vs: seq<nat>) returns (result: seq<byte>)
    requires |ws| == |vs|
    ensures result == dataBuffer + Put(ws, vs)
  {
    result := dataBuffer;
    for i := 0 to |ws|
      invariant result == dataBuffer + Put(ws[..i], vs[..i])
    {
      assert ws[..i + 1][..i] == ws[..i] && vs[..i + 1][..i] == vs[..i];
      result := AppendToBuffer(result, vs[i], ws[i]);
    }
    assert ws[..|ws|] == ws && vs[..|ws|] == vs;
  }

  /** A bounds-checked read: the bytes are copied, swapped in place, and read by the host. */
  method ReadFromBuffer(buf: seq<byte>, pos: nat, size: width) returns (value: nat, newPos: nat, ok: bool)
    ensures Read(value, Reader(newPos, ok)) == GetOne(buf, Reader(pos, true), size)
  {
    hide Be, Le, Reversed;
    if pos + size <= |buf| {
      var dst := new byte[size](i requires 0 <= i < size => buf[pos + i]);
      ghost var wire := buf[pos..pos + size];
      assert dst[..] == wire;
      SwapEndian(dst);
      LeReversed(wire);
      value := Le(dst[..]);
      newPos := pos + size;
      ok := true;
    } else {
      value, newPos, ok := 0, pos, false;
    }
  }

  /** Consecutive reads that keep going after a failure, as the driver's parsers do. */
  method ReadFields(buf: seq<byte>, receivePos: nat, success: bool, ws: seq<width>)
    returns (values: seq<nat>, pos: nat, ok: bool)
    ensures Read(values, Reader(pos, ok)) == Get(buf, Reader(receivePos, success), ws)
  {
    values, pos, ok := [], receivePos, success;
    for i := 0 to |ws|
      invariant Read(values, Reader(pos, ok)) == Get(buf, Reader(receivePos, success), ws[..i])
    {
      assert ws[..i + 1][..i] == ws[..i];
      var value, fits;
      value, pos, fits := ReadFromBuffer(buf, pos, ws[i]);
      values, ok := values + [value], ok && fits;
    }
    assert ws[..|ws|] == ws;
  }

  lemma {:induction false} GetStops(buf: seq<byte>, r: Reader, ws: seq<width>, i: nat)
    requires i <= |ws| && Get(buf, r, ws).reader.ok
    ensures Get(buf, r, ws[..i]).reader.ok
    decreases |ws|
  {
    hide GetOne;
    if i < |ws| {
      var front := ws[..|ws| - 1];
      assert Get(buf, r, front).reader.ok by { GetOneStops(buf, Get(buf, r, front).reader, ws[|ws| - 1]); }
      GetStops(buf, r, front, i);
      assert front[..i] == ws[..i];
    } else {
      assert ws[..i] == ws;
    }
  }

  lemma GetOneStops(buf: seq<byte>, r: Reader, w: width)
    requires GetOne(buf, r, w).reader.ok
    ensures r.ok
  {
  }

  /** Consecutive reads that stop at the first field that does not fit. */
  method ReadChain(buf: seq<byte>, start: nat, ws: seq<width>) returns (values: seq<nat>, pos: nat, ok: bool)
    ensures ok == Get(buf, Reader(start, true), ws).reader.ok
    ensures ok ==> Get(buf, Reader(start, true), ws) == Read(values, Reader(pos, true)) && Fits(ws, values)
  {
    hide GetOne;
    GetFits(buf, Reader(start, true), ws);
    values, pos, ok := [], start, true;
    for i := 0 to |ws|
      invariant ok && Get(buf, Reader(start, true), ws[..i]) == Read(values, Reader(pos, true))
    {
      assert ws[..i + 1][..i] == ws[..i];
      var value;
      value, pos, ok := ReadFromBuffer(buf, pos, ws[i]);
      if !ok {
        if Get(buf, Reader(start, true), ws).reader.ok {
          GetStops(buf, Reader(start, true), ws, i + 1);
        }
        return;
      }
      values := values + [value];
    }
    assert ws[..|ws|] == ws;
  }
}
