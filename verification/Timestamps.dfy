/** The time block of field evaluation and output state telegrams. */
module Timestamps {
  import opened Fields

  const TIME_WIDTHS: seq<width> := [2, 1, 1, 1, 1, 1, 4]

  datatype Time = Time(year: u16, month: u8, day: u8, hour: u8, minute: u8, second: u8, microsecond: u32)

  const NO_TIME := Time(0, 0, 0, 0, 0, 0, 0)

  function TimeWords(t: Time): (vs: seq<nat>)
    ensures Fits(TIME_WIDTHS, vs)
  {
    [t.year, t.month, t.day, t.hour, t.minute, t.second, t.microsecond]
  }

  function TimeOf(vs: seq<nat>): (t: Time)
    requires Fits(TIME_WIDTHS, vs)
    ensures TimeWords(t) == vs
  {
    assert TIME_WIDTHS[1] == 1 && TIME_WIDTHS[2] == 1 && TIME_WIDTHS[3] == 1;
    assert TIME_WIDTHS[4] == 1 && TIME_WIDTHS[5] == 1 && TIME_WIDTHS[6] == 4;
    Time(vs[0], vs[1], vs[2], vs[3], vs[4], vs[5], vs[6])
  }

  lemma TimeSize()
    ensures Size(TIME_WIDTHS) == 11
  {
    hide Size;
    SizeMore([], 2);
    SizeMore([2], 1);
    SizeMore([2, 1], 1);
    SizeMore([2, 1, 1], 1);
    SizeMore([2, 1, 1, 1], 1);
    SizeMore([2, 1, 1, 1, 1], 1);
    SizeMore([2, 1, 1, 1, 1, 1], 4);
    assert [2, 1, 1, 1, 1, 1] + [4] == TIME_WIDTHS && [2, 1, 1, 1, 1] + [1] == [2, 1, 1, 1, 1, 1];
    assert [2, 1, 1, 1] + [1] == [2, 1, 1, 1, 1] && [2, 1, 1] + [1] == [2, 1, 1, 1] && [2, 1] + [1] == [2, 1, 1];
    assert [2] + [1] == [2, 1] && [] + [2] == [2];
  }
}
