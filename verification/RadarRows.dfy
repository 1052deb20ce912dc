/** The keyword search among the fields of a binary radar datagram. */
module RadarRows {
  import opened Bytes
  import opened Fields
  import opened RadarFields
  import opened RadarSearch

  /** The bytes of all fields. */
  function Contents(data: seq<byte>, fields: seq<Slice>): (c: seq<seq<byte>>)
    ensures |c| == |fields|
  {
    seq(|fields|, r requires 0 <= r < |fields| =>
      if fields[r].start + fields[r].len <= |data| then Content(data, fields[r]) else [])
  }

  function Names(cs: seq<RadarChannel>): (n: seq<seq<byte>>)
    ensures |n| == |cs|
  {
    seq(|cs|, k requires 0 <= k < |cs| => cs[k].name)
  }

  /** In a list of channels only identifiers have five bytes. */
  lemma {:induction false} FiveIsHead(cs: seq<RadarChannel>, w: nat, i: nat) returns (k: nat)
    requires w != 5 && i < |ChannelsWidths(cs, w)| && ChannelsWidths(cs, w)[i] == 5
    ensures k < |cs| && i == |ChannelsWidths(cs[..k], w)|
  {
    var front := cs[..|cs| - 1];
    if i < |ChannelsWidths(front, w)| {
      k := FiveIsHead(front, w, i);
      assert front[..k] == cs[..k];
    } else {
      k := |cs| - 1;
    }
  }

  lemma NoFive(d: Datagram)
    ensures forall i :: 0 <= i < |HEADER| ==> HEADER[i] != 5
    ensures forall i :: 0 <= i < |PartsWidths(d)| ==> PartsWidths(d)[i] != 5
  {
  }

  /** Among all fields behind the command only identifiers have five bytes. */
  lemma FiveIsIdentifier(d: Datagram, i: nat) returns (q: nat)
    requires i < |DatagramWidths(d)| && DatagramWidths(d)[i] == 5
    ensures q < |AllChannels(d)| && 2 + i == IdentifierRow(d, q)
  {
    hide ChannelsWidths, PartsWidths, DatagramWidths;
    AllWidths(d);
    NoFive(d);
    var wide, narrow := ChannelsWidths(d.wide, 2), ChannelsWidths(d.narrow, 1);
    var a := |HEADER| + |wide| + 1;
    assert |HEADER| <= i;
    if i < |HEADER| + |wide| {
      assert wide[i - |HEADER|] == 5;
      q := FiveIsHead(d.wide, 2, i - |HEADER|);
    } else {
      assert i >= a && i < a + |narrow| && narrow[i - a] == 5;
      var k := FiveIsHead(d.narrow, 1, i - a);
      q := |d.wide| + k;
    }
  }

  lemma {:induction false} WidthsGrow(cs: seq<RadarChannel>, w: nat, k: nat, j: nat)
    requires k <= j <= |cs|
    ensures |ChannelsWidths(cs[..k], w)| + (j - k) <= |ChannelsWidths(cs[..j], w)|
    decreases j
  {
    if k < j {
      WidthsGrow(cs, w, k, j - 1);
      assert cs[..j][..j - 1] == cs[..j - 1];
    }
  }

  /** Later channels have later rows. */
  lemma RowsGrow(d: Datagram, q: nat, p: nat)
    requires q < p < |AllChannels(d)|
    ensures IdentifierRow(d, q) < IdentifierRow(d, p)
  {
    hide ChannelsWidths;
    var n := |d.wide|;
    assert d.wide[..n] == d.wide;
    if p < n {
      WidthsGrow(d.wide, 2, q, p);
    } else if q < n {
      WidthsGrow(d.wide, 2, q, n);
    } else {
      WidthsGrow(d.narrow, 1, q - n, p - n);
    }
  }

  lemma FieldLengths(data: seq<byte>, d: Datagram)
    requires At(data, 0, EncodeDatagram(d)) && DatagramFits(d)
    ensures HasCommand(data) && |Whole(data).fields| == 2 + |DatagramWidths(d)|
    ensures Whole(data).fields[0].len == 3 && Whole(data).fields[1].len == 12
    ensures forall r :: 2 <= r < |Whole(data).fields| ==> Whole(data).fields[r].len == DatagramWidths(d)[r - 2]
  {
    hide At, EncodeDatagram, DatagramFits, Whole, Sum, Cut, DatagramWidths;
    EncodedIsCut(data, d);
  }

  /** A row that holds a keyword of five bytes is the row of a channel of that name. */
  lemma KeywordIsName(data: seq<byte>, d: Datagram, kw: seq<byte>, r: nat) returns (q: nat)
    requires At(data, 0, EncodeDatagram(d)) && DatagramFits(d) && |kw| == 5 && HasCommand(data)
    requires r < |Whole(data).fields| && Contents(data, Whole(data).fields)[r] == kw
    ensures q < |AllChannels(d)| && r == IdentifierRow(d, q) && AllChannels(d)[q].name == kw
  {
    hide At, EncodeDatagram, DatagramFits, Whole, DatagramWidths, IdentifierRow, AllChannels, ToBe;
    FieldLengths(data, d);
    q := FiveIsIdentifier(d, r - 2);
    HeadRows(data, d, q);
  }

  lemma RowHasName(data: seq<byte>, d: Datagram, kw: seq<byte>, r: nat)
    requires At(data, 0, EncodeDatagram(d)) && DatagramFits(d) && |kw| == 5 && HasCommand(data)
    requires r < |Whole(data).fields| && Contents(data, Whole(data).fields)[r] == kw
    ensures kw in Names(AllChannels(d))
  {
    hide At, EncodeDatagram, DatagramFits, Whole, AllChannels, Contents;
    var p := KeywordIsName(data, d, kw, r);
    assert Names(AllChannels(d))[p] == kw;
  }

  lemma NameInRow(data: seq<byte>, d: Datagram, q: nat)
    requires At(data, 0, EncodeDatagram(d)) && DatagramFits(d) && q < |AllChannels(d)| && HasCommand(data)
    ensures IdentifierRow(d, q) < |Whole(data).fields|
    ensures Contents(data, Whole(data).fields)[IdentifierRow(d, q)] == AllChannels(d)[q].name
  {
    hide At, EncodeDatagram, DatagramFits, Whole, IdentifierRow, AllChannels, ToBe;
    HeadRows(data, d, q);
  }

  /**
   For every complete datagram and every keyword of five bytes, the search returns the row of the last channel of
   that name, and none if there is no such channel: no sample, count or other field is ever taken for a keyword.
   */
  lemma SearchFindsLastChannel(data: seq<byte>, d: Datagram, kw: seq<byte>)
    requires At(data, 0, EncodeDatagram(d)) && DatagramFits(d) && |kw| == 5
    ensures !Refused(data)
    ensures var q := LastRow(Names(AllChannels(d)), kw);
            LastRow(Contents(data, Whole(data).fields), kw) == if q < 0 then -1 else IdentifierRow(d, q)
  {
    hide At, EncodeDatagram, DatagramFits, Whole, Wide, IdentifierRow, AllChannels, LastRow, CutUpTo, Contents;
    EncodedIsCut(data, d);
    var contents, names := Contents(data, Whole(data).fields), Names(AllChannels(d));
    var q := LastRow(names, kw);
    NothingBehind(names, kw);
    if q < 0 {
      if kw in contents {
        var r :| 0 <= r < |contents| && contents[r] == kw;
        RowHasName(data, d, kw, r);
      }
      LastAbsent(contents, kw);
    } else {
      var row := IdentifierRow(d, q);
      NameInRow(data, d, q);
      forall j | row < j < |contents|
        ensures contents[j] != kw
      {
        if contents[j] == kw {
          var p := KeywordIsName(data, d, kw, j);
          assert names[p] == kw;
          if p < q {
            RowsGrow(d, p, q);
          }
        }
      }
      LastRowIs(contents, kw, row);
    }
  }
}
