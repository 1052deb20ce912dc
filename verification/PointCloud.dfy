/** Addresses of points in a cloud of echoes, layers and rows, and the loops that fill and shrink it. */
module PointCloud {
  import opened Arithmetic
  import opened Wrappers

  /** Four floats. */
  const POINT_STEP: nat := 16

  datatype Cell = Cell(x: real, y: real, z: real, intensity: real)

  // ---- addresses ----

  /** The byte offset of a point. */
  function Offset(count: nat, layerOff: nat, echo: nat, width: nat, layers: nat): nat {
    var rowStep := POINT_STEP * width;
    count * POINT_STEP + layerOff * rowStep + echo * rowStep * layers
  }

  /** The row of a layer and an echo. */
  function RowOf(layerOff: nat, echo: nat, layers: nat): nat {
    echo * layers + layerOff
  }

  /** The cell of a row and a column. */
  function Address(row: nat, column: nat, width: nat): nat {
    row * width + column
  }

  /** The cell of a point. */
  function CellOf(count: nat, layerOff: nat, echo: nat, width: nat, layers: nat): nat {
    Address(RowOf(layerOff, echo, layers), count, width)
  }

  lemma OffsetOfCell(count: nat, layerOff: nat, echo: nat, width: nat, layers: nat)
    ensures Offset(count, layerOff, echo, width, layers) == POINT_STEP * CellOf(count, layerOff, echo, width, layers)
  {
    var r := RowOf(layerOff, echo, layers) * width;
    assert r == echo * layers * width + layerOff * width;
    assert layerOff * (POINT_STEP * width) == POINT_STEP * (layerOff * width);
    assert echo * (POINT_STEP * width) * layers == POINT_STEP * (echo * layers * width) by {
      Rearrange(echo, width, layers);
    }
  }

  lemma Rearrange(a: nat, b: nat, c: nat)
    ensures a * (POINT_STEP * b) * c == POINT_STEP * (a * c * b)
  {
    assert a * (POINT_STEP * b) == POINT_STEP * (a * b);
    assert POINT_STEP * (a * b) * c == POINT_STEP * (a * b * c);
    assert a * b * c == a * (b * c) == a * (c * b) == a * c * b;
  }

  /** A digit in front and one behind: the pair is below the product of the bases. */
  lemma PairInside(high: nat, low: nat, highs: nat, lows: nat)
    requires high < highs && low < lows
    ensures high * lows + low < highs * lows
  {
    MultiplyMonotone(high + 1, highs, lows);
    assert (high + 1) * lows == high * lows + lows;
  }

  lemma EarlierRow(high: nat, low: nat, high': nat, lows: nat)
    requires low < lows && high < high'
    ensures high * lows + low < high' * lows
  {
    MultiplyMonotone(high + 1, high', lows);
    assert (high + 1) * lows == high * lows + lows;
  }

  lemma PairUnique(high: nat, low: nat, high': nat, low': nat, lows: nat)
    requires low < lows && low' < lows && high * lows + low == high' * lows + low'
    ensures high == high' && low == low'
  {
    if high < high' {
      EarlierRow(high, low, high', lows);
    } else if high' < high {
      EarlierRow(high', low', high, lows);
    }
  }

  /** Every point of every layer and echo has its sixteen bytes inside the data. */
  lemma CellInside(count: nat, layerOff: nat, echo: nat, width: nat, layers: nat, echoes: nat)
    requires count < width && layerOff < layers && echo < echoes
    ensures CellOf(count, layerOff, echo, width, layers) < echoes * layers * width
    ensures Offset(count, layerOff, echo, width, layers) + POINT_STEP <= POINT_STEP * (echoes * layers * width)
  {
    PairInside(echo, layerOff, echoes, layers);
    PairInside(RowOf(layerOff, echo, layers), count, echoes * layers, width);
    OffsetOfCell(count, layerOff, echo, width, layers);
  }

  /** Different points have disjoint bytes. */
  lemma CellsDisjoint(count: nat, layerOff: nat, echo: nat, count': nat, layerOff': nat, echo': nat, width: nat,
                      layers: nat)
    requires count < width && count' < width && layerOff < layers && layerOff' < layers
    requires (count, layerOff, echo) != (count', layerOff', echo')
    ensures var a, b := Offset(count, layerOff, echo, width, layers), Offset(count', layerOff', echo', width, layers);
            a + POINT_STEP <= b || b + POINT_STEP <= a
  {
    var a, b := CellOf(count, layerOff, echo, width, layers), CellOf(count', layerOff', echo', width, layers);
    OffsetOfCell(count, layerOff, echo, width, layers);
    OffsetOfCell(count', layerOff', echo', width, layers);
    if a == b {
      PairUnique(RowOf(layerOff, echo, layers), count, RowOf(layerOff', echo', layers), count', width);
      PairUnique(echo, layerOff, echo', layerOff', layers);
    }
  }

  // ---- how many ranges are read per echo ----

  /** The width of the cloud: the ranges of one echo. */
  function Width(ranges: nat, numEchos: nat): nat
    requires numEchos > 0
  {
    ranges / numEchos
  }

  function Min(a: nat, b: nat): nat {
    if a < b then a else b
  }

  /** The number of scan indices per valid echo. */
  function RangeNum(ranges: nat, numEchos: nat, layers: nat, valid: nat): nat
    requires numEchos > 0 && valid > 0
  {
    Min(ranges, valid * layers * Width(ranges, numEchos)) / valid
  }

  lemma DivideAtLeast(n: nat, d: nat, q: nat)
    requires d > 0 && n >= d * q
    ensures n / d >= q
  {
    assert n < d * (n / d) + d == (n / d + 1) * d;
    if n / d < q {
      MultiplyMonotone(n / d + 1, q, d);
    }
  }

  lemma DivideBelow(n: nat, d: nat, q: nat)
    requires d > 0 && n < d * q
    ensures n / d < q
  {
    if n / d >= q {
      MultiplyMonotone(q, n / d, d);
    }
  }

  /** All ranges that are read exist, whatever the numbers of layers and echoes. */
  lemma RangeReadInside(ranges: nat, numEchos: nat, layers: nat, valid: nat, echo: nat, i: nat)
    requires numEchos > 0 && echo < valid && i < RangeNum(ranges, numEchos, layers, valid)
    ensures echo * RangeNum(ranges, numEchos, layers, valid) + i < ranges
  {
    var n := RangeNum(ranges, numEchos, layers, valid);
    PairInside(echo, i, valid, n);
    assert valid * n <= Min(ranges, valid * layers * Width(ranges, numEchos));
  }

  lemma EchoesFit(ranges: nat, numEchos: nat, valid: nat)
    requires 0 < valid <= numEchos
    ensures valid * Width(ranges, numEchos) <= ranges
  {
    MultiplyMonotone(valid, numEchos, Width(ranges, numEchos));
  }

  /**
   An echo has exactly as many scan indices as the cloud has columns, if and only if there is one layer, or
   the ranges per valid echo are as many as the ranges per echo; else it has more.
   */
  lemma RangeNumIsWidth(ranges: nat, numEchos: nat, layers: nat, valid: nat)
    requires 0 < valid <= numEchos && layers > 0 && Width(ranges, numEchos) > 0
    ensures RangeNum(ranges, numEchos, layers, valid) >= Width(ranges, numEchos)
    ensures RangeNum(ranges, numEchos, layers, valid) == Width(ranges, numEchos)
            <==> layers == 1 || ranges / valid == Width(ranges, numEchos)
    ensures valid == numEchos ==> RangeNum(ranges, numEchos, layers, valid) == Width(ranges, numEchos)
  {
    var w := Width(ranges, numEchos);
    EchoesFit(ranges, numEchos, valid);
    MultiplyMonotone(1, layers, valid * w);
    assert layers * (valid * w) == valid * layers * w;
    DivideAtLeast(Min(ranges, valid * layers * w), valid, w);
    DivideAtLeast(ranges, valid, w);
    NextMultiple(valid, w);
    if layers == 1 {
      DivideBelow(valid * w, valid, w + 1);
    } else {
      TwoLayers(valid, layers, w);
      if ranges < valid * (w + 1) {
        DivideBelow(ranges, valid, w + 1);
      } else {
        DivideAtLeast(ranges, valid, w + 1);
        DivideAtLeast(Min(ranges, valid * layers * w), valid, w + 1);
      }
    }
  }

  lemma NextMultiple(d: nat, w: nat)
    ensures d * (w + 1) == d * w + d
  {
  }

  /** Two layers have room for one more column. */
  lemma TwoLayers(valid: nat, layers: nat, w: nat)
    requires layers >= 2 && w > 0
    ensures valid * (w + 1) <= valid * layers * w
  {
    MultiplyMonotone(w + 1, 2 * w, valid);
    MultiplyMonotone(2, layers, valid * w);
    assert (w + 1) * valid == valid * (w + 1);
    assert 2 * w * valid == 2 * (valid * w);
    assert layers * (valid * w) == valid * layers * w;
  }

  /**
   All cells of all layers lie inside the data, if and only if there is one layer or the ranges per valid echo are
   as many as the ranges per echo.
   */
  lemma AllCellsInside(ranges: nat, numEchos: nat, layers: nat, valid: nat)
    requires 0 < valid <= numEchos && layers > 0 && Width(ranges, numEchos) > 0
    ensures (forall count, layerOff, echo ::
               0 <= count < RangeNum(ranges, numEchos, layers, valid) && 0 <= layerOff < layers && 0 <= echo < valid ==>
                 CellOf(count, layerOff, echo, Width(ranges, numEchos), layers)
                 < valid * layers * Width(ranges, numEchos))
            <==> layers == 1 || ranges / valid == Width(ranges, numEchos)
  {
    var w, n := Width(ranges, numEchos), RangeNum(ranges, numEchos, layers, valid);
    RangeNumIsWidth(ranges, numEchos, layers, valid);
    if n == w {
      forall count, layerOff, echo | 0 <= count < n && 0 <= layerOff < layers && 0 <= echo < valid
        ensures CellOf(count, layerOff, echo, w, layers) < valid * layers * w
      {
        CellInside(count, layerOff, echo, w, layers, valid);
      }
    } else {
      LastRow(w, layers, valid);
      assert !(CellOf(w, layers - 1, valid - 1, w, layers) < valid * layers * w);
    }
  }

  /**
   Three echoes of one range, of which one is valid, and four layers: the last layer's third point is behind the data.
   */
  lemma OneOfThreeEchoesOverruns()
    ensures RangeNum(3, 3, 4, 1) == 3 && CellOf(2, 3, 0, Width(3, 3), 4) >= 1 * 4 * Width(3, 3)
  {
    assert 3 / 3 == 1 && Min(3, 4) / 1 == 3;
  }

  /** One cell behind the last row is the end of the data. */
  lemma LastRow(width: nat, layers: nat, echoes: nat)
    requires layers > 0 && echoes > 0
    ensures CellOf(width, layers - 1, echoes - 1, width, layers) == echoes * layers * width
  {
    assert (echoes - 1) * layers + (layers - 1) == echoes * layers - 1;
    assert (echoes * layers - 1) * width + width == echoes * layers * width;
  }

  /** Every echo fills its row exactly. */
  predicate Regular(ranges: nat, numEchos: nat, layers: nat, valid: nat)
    requires 0 < valid <= numEchos
  {
    layers == 1 || ranges / valid == Width(ranges, numEchos)
  }

  lemma RegularRangeNum(ranges: nat, numEchos: nat, layers: nat, valid: nat)
    requires 0 < valid <= numEchos && layers > 0 && Regular(ranges, numEchos, layers, valid)
    ensures RangeNum(ranges, numEchos, layers, valid) == Width(ranges, numEchos)
    ensures valid * Width(ranges, numEchos) <= ranges
  {
    EchoesFit(ranges, numEchos, valid);
    if Width(ranges, numEchos) > 0 {
      RangeNumIsWidth(ranges, numEchos, layers, valid);
    }
  }

  // ---- filling ----

  /** The ranges of one layer, all echoes one behind the other, and the point a range stands for. */
  datatype LayerScan = LayerScan(layerOff: nat, ranges: seq<real>, point: (nat, nat, real) -> Cell)

  /** The points of an echo's first n scan indices, those dropped by the filter left out. */
  function Kept(ranges: seq<real>, echo: nat, rangeNum: nat, n: nat, filter: real -> Option<real>,
                point: (nat, nat, real) -> Cell): (k: seq<Cell>)
    requires echo * rangeNum + n <= |ranges|
    ensures |k| <= n
  {
    if n == 0 then []
    else
      var front, range := Kept(ranges, echo, rangeNum, n - 1, filter, point), filter(ranges[echo * rangeNum + (n - 1)]);
      if range.Some? then front + [point(echo, n - 1, range.value)] else front
  }

  /** The points kept of one echo of a layer. */
  function EchoPoints(scan: LayerScan, echo: nat, rangeNum: nat, filter: real -> Option<real>): seq<Cell> {
    if echo * rangeNum + rangeNum <= |scan.ranges| then Kept(scan.ranges, echo, rangeNum, rangeNum, filter, scan.point)
    else []
  }

  /** The largest number of points kept of one echo. */
  function MostKept(scan: LayerScan, echoes: nat, rangeNum: nat, filter: real -> Option<real>): nat {
    if echoes == 0 then 0
    else
      var front, last := MostKept(scan, echoes - 1, rangeNum, filter), |EchoPoints(scan, echoes - 1, rangeNum, filter)|;
      if front < last then last else front
  }

  lemma {:induction false} MostKeptIsMost(scan: LayerScan, echoes: nat, rangeNum: nat, filter: real -> Option<real>)
    ensures forall e :: 0 <= e < echoes ==>
              |EchoPoints(scan, e, rangeNum, filter)| <= MostKept(scan, echoes, rangeNum, filter)
    ensures MostKept(scan, echoes, rangeNum, filter) <= rangeNum
    ensures echoes > 0 ==> exists e :: 0 <= e < echoes
                            && |EchoPoints(scan, e, rangeNum, filter)| == MostKept(scan, echoes, rangeNum, filter)
  {
    hide EchoPoints;
    if echoes > 0 {
      MostKeptIsMost(scan, echoes - 1, rangeNum, filter);
      AtMostAll(scan, echoes - 1, rangeNum, filter);
    }
  }

  lemma AtMostAll(scan: LayerScan, echo: nat, rangeNum: nat, filter: real -> Option<real>)
    ensures |EchoPoints(scan, echo, rangeNum, filter)| <= rangeNum
  {
  }

  /** The row's cells from its start on. */
  ghost predicate RowHolds(data: seq<Cell>, width: nat, row: nat, cells: seq<Cell>) {
    row * width + |cells| <= |data| && data[row * width..row * width + |cells|] == cells
  }

  ghost predicate OnlyRow(before: seq<Cell>, after: seq<Cell>, start: nat, count: nat) {
    |before| == |after|
    && forall c :: 0 <= c < |before| && !(start <= c < start + count) ==> after[c] == before[c]
  }

  const NoPoint := Cell(0.0, 0.0, 0.0, 0.0)

  /** std::vector::resize: what fits stays, new cells are zero. */
  function ResizedCells(data: seq<Cell>, size: nat): (r: seq<Cell>)
    ensures |r| == size
  {
    seq(size, c requires 0 <= c => if c < |data| then data[c] else NoPoint)
  }

  /** How many cells of a row one layer's first n echoes write. */
  function KeptBy(scan: LayerScan, n: nat, row: nat, layers: nat, rangeNum: nat, filter: real -> Option<real>): nat
    requires layers > 0
  {
    if row % layers == scan.layerOff && row / layers < n then |EchoPoints(scan, row / layers, rangeNum, filter)| else 0
  }

  /** Only the points kept of a layer's first n echoes are written. */
  ghost predicate OnlyPoints(before: seq<Cell>, after: seq<Cell>, width: nat, layers: nat, scan: LayerScan, n: nat,
                             rangeNum: nat, filter: real -> Option<real>)
    requires layers > 0
  {
    && |before| == |after|
    && forall row: nat, c: nat ::
         && c < width && Address(row, c, width) < |before|
         && c >= KeptBy(scan, n, row, layers, rangeNum, filter) ==>
           after[Address(row, c, width)] == before[Address(row, c, width)]
  }

  class Cloud {
    var width: nat
    var height: nat
    var data: array<Cell>

    ghost predicate Valid()
      reads this
    {
      data.Length == height * width
    }

    constructor ()
      ensures Valid() && width == 0 && height == 0 && fresh(data)
    {
      width, height, data := 0, 0, new Cell[0];
    }

    /** Sets the layout; the data keep what fits and are filled up with zeros. */
    method Resize(height': nat, width': nat)
      requires Valid()
      modifies this
      ensures Valid() && width == width' && height == height' && fresh(data)
      ensures data[..] == ResizedCells(old(data[..]), height' * width')
    {
      var was := data;
      data := new Cell[height' * width'](c requires 0 <= c reads was => if c < was.Length then was[c] else NoPoint);
      width, height := width', height';
    }

    /** The points of one echo, one behind the other from the start of its row, also beyond the row's end. */
    method FillEcho(scan: LayerScan, echo: nat, layers: nat, rangeNum: nat, filter: real -> Option<real>)
      returns (rangeNumPointcloudCurEcho: nat)
      requires echo * rangeNum + rangeNum <= |scan.ranges|
      requires RowOf(scan.layerOff, echo, layers) * width + rangeNum <= data.Length
      modifies data
      ensures var kept := EchoPoints(scan, echo, rangeNum, filter);
              && rangeNumPointcloudCurEcho == |kept|
              && RowHolds(data[..], width, RowOf(scan.layerOff, echo, layers), kept)
              && OnlyRow(old(data[..]), data[..], RowOf(scan.layerOff, echo, layers) * width, |kept|)
    {
      hide Kept, Offset, CellOf, RowOf;
      ghost var before, start := data[..], RowOf(scan.layerOff, echo, layers) * width;
      ghost var size := data.Length;
      NothingKept(scan.ranges, echo, rangeNum, filter, scan.point);
      rangeNumPointcloudCurEcho := 0;
      var rangeIdxScan := 0;
      while rangeIdxScan < rangeNum
        invariant 0 <= rangeIdxScan <= rangeNum && start + rangeNum <= size == data.Length
        invariant rangeNumPointcloudCurEcho == |Kept(scan.ranges, echo, rangeNum, rangeIdxScan, filter, scan.point)|
        invariant forall c :: 0 <= c < rangeNumPointcloudCurEcho && start + c < data.Length ==>
                    data[start + c] == Kept(scan.ranges, echo, rangeNum, rangeIdxScan, filter, scan.point)[c]
        invariant forall c :: 0 <= c < data.Length && !(start <= c < start + rangeNumPointcloudCurEcho) ==>
                    data[c] == before[c]
      {
        var pointcloudAdroff := Offset(rangeNumPointcloudCurEcho, scan.layerOff, echo, width, layers);
        PointAt(rangeNumPointcloudCurEcho, scan.layerOff, echo, width, layers, start);
        KeptMore(scan.ranges, echo, rangeNum, rangeIdxScan, filter, scan.point);
        var range := filter(scan.ranges[echo * rangeNum + rangeIdxScan]);
        if range.Some? {
          data[pointcloudAdroff / POINT_STEP] := scan.point(echo, rangeIdxScan, range.value);
          rangeNumPointcloudCurEcho := rangeNumPointcloudCurEcho + 1;
        }
        rangeIdxScan := rangeIdxScan + 1;
      }
      assert data[..][start..start + rangeNumPointcloudCurEcho]
          == Kept(scan.ranges, echo, rangeNum, rangeNum, filter, scan.point);
    }

    /** The current layer of all valid echoes; the largest number of points kept of one echo. */
    method FillLayer(scan: LayerScan, numEchos: nat, layers: nat, valid: nat, filter: real -> Option<real>)
      returns (rangeNum: nat, rangeNumPointcloudAllEchos: nat)
      requires Valid() && scan.layerOff < layers && 0 < valid <= numEchos
      requires height == valid * layers && width == Width(|scan.ranges|, numEchos)
      requires Regular(|scan.ranges|, numEchos, layers, valid)
      modifies data
      ensures rangeNum == RangeNum(|scan.ranges|, numEchos, layers, valid) == width
      ensures forall e :: 0 <= e < valid ==>
                RowHolds(data[..], width, RowOf(scan.layerOff, e, layers), EchoPoints(scan, e, rangeNum, filter))
      ensures rangeNumPointcloudAllEchos == MostKept(scan, valid, rangeNum, filter)
      ensures OnlyPoints(old(data[..]), data[..], width, layers, scan, valid, rangeNum, filter)
    {
      hide EchoPoints, RowHolds, OnlyRow, OnlyPoints, RowOf, Regular;
      var rangeNumAllEchos := Min(|scan.ranges|, height * width);
      rangeNum := rangeNumAllEchos / valid;
      RegularRangeNum(|scan.ranges|, numEchos, layers, valid);
      ghost var before := data[..];
      NoPointsYet(before, width, layers, scan, rangeNum, filter);
      rangeNumPointcloudAllEchos := 0;
      for iEcho := 0 to valid
        invariant Valid() && rangeNumPointcloudAllEchos == MostKept(scan, iEcho, rangeNum, filter)
        invariant forall e :: 0 <= e < iEcho ==>
                    RowHolds(data[..], width, RowOf(scan.layerOff, e, layers), EchoPoints(scan, e, rangeNum, filter))
        invariant OnlyPoints(before, data[..], width, layers, scan, iEcho, rangeNum, filter)
      {
        ghost var was := data[..];
        EchoInside(iEcho, scan.layerOff, layers, valid, rangeNum);
        RowInside(RowOf(scan.layerOff, iEcho, layers), rangeNum, height, width);
        AtMostAll(scan, iEcho, rangeNum, filter);
        var rangeNumPointcloudCurEcho := FillEcho(scan, iEcho, layers, rangeNum, filter);
        ghost var now, mine := data[..], EchoPoints(scan, iEcho, rangeNum, filter);
        forall e | 0 <= e < iEcho
          ensures RowHolds(now, width, RowOf(scan.layerOff, e, layers), EchoPoints(scan, e, rangeNum, filter))
        {
          RowsApart(scan.layerOff, e, scan.layerOff, iEcho, layers);
          AtMostAll(scan, e, rangeNum, filter);
          RowUntouched(was, now, width, RowOf(scan.layerOff, e, layers), EchoPoints(scan, e, rangeNum, filter),
                       RowOf(scan.layerOff, iEcho, layers), |mine|);
        }
        OneEchoMore(before, was, now, width, layers, scan, iEcho, rangeNum, filter);
        if rangeNumPointcloudAllEchos < rangeNumPointcloudCurEcho {
          rangeNumPointcloudAllEchos := rangeNumPointcloudCurEcho;
        }
      }
    }

    /** What one telegram does to the cloud: the layout is set, then its layer is filled. */
    method AddLayer(scan: LayerScan, numEchos: nat, layers: nat, valid: nat, filter: real -> Option<real>)
      returns (rangeNum: nat, rangeNumPointcloudAllEchos: nat)
      requires Valid() && scan.layerOff < layers && 0 < valid <= numEchos
      requires Regular(|scan.ranges|, numEchos, layers, valid)
      modifies this
      ensures Valid() && fresh(data) && height == valid * layers
      ensures width == Width(|scan.ranges|, numEchos) == rangeNum
      ensures forall e :: 0 <= e < valid ==>
                RowHolds(data[..], width, RowOf(scan.layerOff, e, layers), EchoPoints(scan, e, rangeNum, filter))
      ensures rangeNumPointcloudAllEchos == MostKept(scan, valid, rangeNum, filter)
      ensures OnlyPoints(ResizedCells(old(data[..]), valid * layers * width), data[..], width, layers, scan, valid,
                         rangeNum, filter)
    {
      hide EchoPoints, RowHolds, OnlyPoints, RowOf, Regular, MostKept, RangeNum;
      Resize(valid * layers, Width(|scan.ranges|, numEchos));
      rangeNum, rangeNumPointcloudAllEchos := FillLayer(scan, numEchos, layers, valid, filter);
    }

    /** Keeps the first columns of each row. */
    method ResizePointCloud(rangeNum: nat)
      requires Valid() && rangeNum <= width
      modifies this
      ensures Valid() && width == rangeNum && height == old(height) && fresh(data)
      ensures Shrunk(old(data[..]), old(width), data[..], rangeNum, height)
    {
      hide Shrunk;
      ghost var before := data[..];
      var resized := new Cell[height * rangeNum](_ => NoPoint);
      var n := 0;
      NoRows(before, width, resized[..], rangeNum);
      while n < height
        invariant data == old(data) && width == old(width) && height == old(height) && data[..] == before
        invariant 0 <= n <= height && resized.Length == height * rangeNum
        invariant Shrunk(before, width, resized[..], rangeNum, n)
      {
        RowInside(n, rangeNum, height, rangeNum);
        RowInside(n, rangeNum, height, width);
        ghost var done := resized[..];
        forall c | 0 <= c < rangeNum {
          resized[n * rangeNum + c] := data[n * width + c];
        }
        assert forall c :: 0 <= c < rangeNum ==> resized[Address(n, c, rangeNum)] == before[Address(n, c, width)];
        OneRowMore(before, width, done, resized[..], rangeNum, n);
        n := n + 1;
      }
      data, width := resized, rangeNum;
    }

    /** The layers of one revolution, and the shrinking before the cloud is published. */
    method FillCloud(scans: seq<LayerScan>, numEchos: nat, layers: nat, valid: nat, filter: real -> Option<real>,
                     dropping: bool)
      requires Valid() && scans != [] && 0 < valid <= numEchos && Layered(scans, numEchos, layers, valid)
      modifies this
      ensures Valid() && height == valid * layers
      ensures width == FinalWidth(scans, numEchos, valid, filter, dropping)
      ensures RowsStart(data[..], width, scans, numEchos, layers, valid, filter)
      ensures BehindIsOld(old(data[..]), data[..], width, scans, numEchos, layers, valid, filter)
    {
      hide RowHolds, LayersHold, OnlyPoints, Untouched, RowOf, EchoPoints, MostKept, Regular, Layered, Shrunk,
           ResizedCells, KeptIn;
      var k, rangeNum, most := 0, 0, 0;
      ghost var w := Width(|scans[0].ranges|, numEchos);
      ghost var prior := ResizedCells(data[..], valid * layers * w);
      LayeredAt(scans, numEchos, layers, valid, 0);
      NoLayersYet(prior, w, scans, numEchos, layers, valid, filter);
      while k < |scans|
        invariant 0 <= k <= |scans| && Valid()
        invariant if k == 0 then data[..] == old(data[..]) else height == valid * layers && width == w == rangeNum
        invariant k > 0 ==> most == MostKept(scans[k - 1], valid, w, filter)
        invariant var cells := if k == 0 then prior else data[..];
                  && LayersHold(cells, w, scans, k, numEchos, layers, valid, filter)
                  && Untouched(prior, cells, scans, k, numEchos, layers, valid, filter)
      {
        ghost var was := if k == 0 then prior else data[..];
        LayeredAt(scans, numEchos, layers, valid, k);
        if k > 0 {
          SameSize(was);
        }
        rangeNum, most := AddLayer(scans[k], numEchos, layers, valid, filter);
        LayerAdded(prior, was, data[..], scans, k, numEchos, layers, valid, filter);
        LayersHoldMore(was, data[..], w, scans, k, numEchos, layers, valid, filter);
        k := k + 1;
      }
      LayeredAt(scans, numEchos, layers, valid, |scans| - 1);
      MostKeptIsMost(scans[|scans| - 1], valid, w, filter);
      ghost var full := data[..];
      if dropping && most < rangeNum {
        ResizePointCloud(most);
      } else {
        AllColumns(full, width, height);
      }
      AllRowsStart(full, data[..], width, scans, numEchos, layers, valid, filter);
      AllBehind(old(data[..]), full, data[..], width, scans, numEchos, layers, valid, filter);
    }
  }

  /** Scans of different layers, all of one size that fills the rows exactly. */
  ghost predicate Layered(scans: seq<LayerScan>, numEchos: nat, layers: nat, valid: nat)
    requires 0 < valid <= numEchos
  {
    && scans != []
    && (forall i :: 0 <= i < |scans| ==> scans[i].layerOff < layers && |scans[i].ranges| == |scans[0].ranges|)
    && (forall i, j :: 0 <= i < j < |scans| ==> scans[i].layerOff != scans[j].layerOff)
    && Regular(|scans[0].ranges|, numEchos, layers, valid)
  }

  lemma LayeredAt(scans: seq<LayerScan>, numEchos: nat, layers: nat, valid: nat, k: nat)
    requires 0 < valid <= numEchos && Layered(scans, numEchos, layers, valid) && k < |scans|
    ensures scans[k].layerOff < layers && |scans[k].ranges| == |scans[0].ranges|
    ensures Regular(|scans[k].ranges|, numEchos, layers, valid)
    ensures forall i :: 0 <= i < k ==> scans[i].layerOff != scans[k].layerOff
  {
    hide Regular;
  }

  function PointsOf(scans: seq<LayerScan>, i: nat, echo: nat, numEchos: nat, filter: real -> Option<real>): seq<Cell>
    requires i < |scans| && numEchos > 0
  {
    EchoPoints(scans[i], echo, Width(|scans[0].ranges|, numEchos), filter)
  }

  /** The width after the last layer: the most points it kept of an echo, if points are dropped. */
  function FinalWidth(scans: seq<LayerScan>, numEchos: nat, valid: nat, filter: real -> Option<real>,
                      dropping: bool): nat
    requires scans != [] && numEchos > 0
  {
    var w := Width(|scans[0].ranges|, numEchos);
    if dropping then MostKept(scans[|scans| - 1], valid, w, filter) else w
  }

  function Cut(cells: seq<Cell>, width: nat): seq<Cell> {
    if |cells| <= width then cells else cells[..width]
  }

  /** Cells at the start of a row, and inside that row. */
  ghost predicate RowStarts(data: seq<Cell>, width: nat, row: nat, cells: seq<Cell>) {
    && 0 <= row * width && row * width + width <= |data|
    && cells <= data[row * width..row * width + width]
  }

  lemma SameSize(data: seq<Cell>)
    ensures ResizedCells(data, |data|) == data
  {
  }

  lemma RowParts(layerOff: nat, echo: nat, layers: nat)
    requires layerOff < layers
    ensures RowOf(layerOff, echo, layers) % layers == layerOff && RowOf(layerOff, echo, layers) / layers == echo
  {
    var row := RowOf(layerOff, echo, layers);
    PairUnique(row / layers, row % layers, echo, layerOff, layers);
  }

  lemma PartsOfRow(row: nat, layers: nat)
    requires layers > 0
    ensures row == RowOf(row % layers, row / layers, layers) && row % layers < layers
  {
  }

  lemma NoPointsYet(data: seq<Cell>, width: nat, layers: nat, scan: LayerScan, rangeNum: nat,
                    filter: real -> Option<real>)
    requires layers > 0
    ensures OnlyPoints(data, data, width, layers, scan, 0, rangeNum, filter)
  {
  }

  lemma OneEchoMore(before: seq<Cell>, was: seq<Cell>, now: seq<Cell>, width: nat, layers: nat, scan: LayerScan, n: nat,
                    rangeNum: nat, filter: real -> Option<real>)
    requires scan.layerOff < layers && |EchoPoints(scan, n, rangeNum, filter)| <= width
    requires OnlyPoints(before, was, width, layers, scan, n, rangeNum, filter)
    requires OnlyRow(was, now, RowOf(scan.layerOff, n, layers) * width, |EchoPoints(scan, n, rangeNum, filter)|)
    ensures OnlyPoints(before, now, width, layers, scan, n + 1, rangeNum, filter)
  {
    hide EchoPoints, RowOf;
    var written, count := RowOf(scan.layerOff, n, layers), |EchoPoints(scan, n, rangeNum, filter)|;
    RowParts(scan.layerOff, n, layers);
    forall row: nat, c: nat | c < width && Address(row, c, width) < |before|
                              && c >= KeptBy(scan, n + 1, row, layers, rangeNum, filter)
      ensures now[Address(row, c, width)] == before[Address(row, c, width)]
    {
      PartsOfRow(row, layers);
      if row != written {
        CellsApart(row, c, written, count, width);
      }
      assert was[Address(row, c, width)] == before[Address(row, c, width)];
    }
  }

  /** A layer that is added leaves the rows of other layers. */
  lemma OtherLayerHolds(before: seq<Cell>, after: seq<Cell>, width: nat, layers: nat, scan: LayerScan, valid: nat,
                        filter: real -> Option<real>, layerOff: nat, echo: nat, cells: seq<Cell>)
    requires layerOff < layers && layerOff != scan.layerOff
             && OnlyPoints(before, after, width, layers, scan, valid, width, filter)
    requires |cells| <= width && RowHolds(before, width, RowOf(layerOff, echo, layers), cells)
    ensures RowHolds(after, width, RowOf(layerOff, echo, layers), cells)
  {
    hide RowOf, EchoPoints;
    var row := RowOf(layerOff, echo, layers);
    RowParts(layerOff, echo, layers);
    var first := row * width;
    var was, now := before[first..first + |cells|], after[first..first + |cells|];
    forall c: nat | c < |cells|
      ensures now[c] == was[c]
    {
      assert Address(row, c, width) == first + c;
      assert after[Address(row, c, width)] == before[Address(row, c, width)];
    }
  }

  /** The points kept of the first k layers stand in their rows. */
  ghost predicate LayersHold(data: seq<Cell>, width: nat, scans: seq<LayerScan>, k: nat, numEchos: nat, layers: nat,
                             valid: nat, filter: real -> Option<real>)
    requires k <= |scans| && numEchos > 0
  {
    forall i, e :: 0 <= i < k && 0 <= e < valid ==>
      RowHolds(data, width, RowOf(scans[i].layerOff, e, layers), PointsOf(scans, i, e, numEchos, filter))
  }

  lemma NoLayersYet(data: seq<Cell>, width: nat, scans: seq<LayerScan>, numEchos: nat, layers: nat, valid: nat,
                    filter: real -> Option<real>)
    requires scans != [] && numEchos > 0 && layers > 0
    ensures LayersHold(data, width, scans, 0, numEchos, layers, valid, filter)
    ensures Untouched(data, data, scans, 0, numEchos, layers, valid, filter)
  {
  }

  lemma LayersHoldMore(was: seq<Cell>, now: seq<Cell>, width: nat, scans: seq<LayerScan>, k: nat, numEchos: nat,
                       layers: nat, valid: nat, filter: real -> Option<real>)
    requires 0 < valid <= numEchos && Layered(scans, numEchos, layers, valid) && k < |scans|
    requires layers > 0 && width == Width(|scans[0].ranges|, numEchos)
    requires LayersHold(was, width, scans, k, numEchos, layers, valid, filter)
    requires OnlyPoints(was, now, width, layers, scans[k], valid, width, filter)
    requires forall e :: 0 <= e < valid ==>
               RowHolds(now, width, RowOf(scans[k].layerOff, e, layers), EchoPoints(scans[k], e, width, filter))
    ensures LayersHold(now, width, scans, k + 1, numEchos, layers, valid, filter)
  {
    hide RowHolds, OnlyPoints, RowOf, EchoPoints, Regular, Layered;
    LayeredAt(scans, numEchos, layers, valid, k);
    forall i, e | 0 <= i < k && 0 <= e < valid
      ensures RowHolds(now, width, RowOf(scans[i].layerOff, e, layers), PointsOf(scans, i, e, numEchos, filter))
    {
      LayeredAt(scans, numEchos, layers, valid, i);
      AtMostAll(scans[i], e, width, filter);
      OtherLayerHolds(was, now, width, layers, scans[k], valid, filter, scans[i].layerOff, e,
                      PointsOf(scans, i, e, numEchos, filter));
    }
  }

  /** How many cells of a row the first k layers write. */
  function KeptIn(scans: seq<LayerScan>, k: nat, row: nat, layers: nat, valid: nat, rangeNum: nat,
                  filter: real -> Option<real>): nat
    requires k <= |scans| && layers > 0
  {
    if k == 0 then 0
    else if row % layers == scans[k - 1].layerOff then KeptBy(scans[k - 1], valid, row, layers, rangeNum, filter)
    else KeptIn(scans, k - 1, row, layers, valid, rangeNum, filter)
  }

  /** Cells that hold no point of the first k layers are as they were. */
  ghost predicate Untouched(prior: seq<Cell>, data: seq<Cell>, scans: seq<LayerScan>, k: nat, numEchos: nat,
                            layers: nat, valid: nat, filter: real -> Option<real>)
    requires scans != [] && k <= |scans| && numEchos > 0 && layers > 0
  {
    var w := Width(|scans[0].ranges|, numEchos);
    && |prior| == |data|
    && forall row: nat, c: nat ::
         && c < w && Address(row, c, w) < |prior|
         && c >= KeptIn(scans, k, row, layers, valid, w, filter) ==>
           data[Address(row, c, w)] == prior[Address(row, c, w)]
  }

  /** No earlier layer has written rows of layer k. */
  lemma {:induction false} NewRow(scans: seq<LayerScan>, j: nat, k: nat, row: nat, layers: nat, valid: nat,
                                  rangeNum: nat, filter: real -> Option<real>)
    requires j <= k < |scans| && layers > 0 && row % layers == scans[k].layerOff
    requires forall i :: 0 <= i < k ==> scans[i].layerOff != scans[k].layerOff
    ensures KeptIn(scans, j, row, layers, valid, rangeNum, filter) == 0
  {
    if j > 0 {
      NewRow(scans, j - 1, k, row, layers, valid, rangeNum, filter);
    }
  }

  lemma LayerAdded(prior: seq<Cell>, was: seq<Cell>, now: seq<Cell>, scans: seq<LayerScan>, k: nat, numEchos: nat,
                   layers: nat, valid: nat, filter: real -> Option<real>)
    requires k < |scans| && numEchos > 0 && layers > 0
    requires forall i :: 0 <= i < k ==> scans[i].layerOff != scans[k].layerOff
    requires Untouched(prior, was, scans, k, numEchos, layers, valid, filter)
    requires var w := Width(|scans[0].ranges|, numEchos); OnlyPoints(was, now, w, layers, scans[k], valid, w, filter)
    ensures Untouched(prior, now, scans, k + 1, numEchos, layers, valid, filter)
  {
    hide EchoPoints;
    var w := Width(|scans[0].ranges|, numEchos);
    forall row: nat, c: nat | c < w && Address(row, c, w) < |prior|
           && c >= KeptIn(scans, k + 1, row, layers, valid, w, filter)
      ensures now[Address(row, c, w)] == prior[Address(row, c, w)]
    {
      if row % layers == scans[k].layerOff {
        NewRow(scans, k, k, row, layers, valid, w, filter);
      }
      assert now[Address(row, c, w)] == was[Address(row, c, w)];
      assert was[Address(row, c, w)] == prior[Address(row, c, w)];
    }
  }

  /** How many cells of a row the whole revolution writes. */
  function KeptOfRow(scans: seq<LayerScan>, row: nat, numEchos: nat, layers: nat, valid: nat,
                     filter: real -> Option<real>): nat
    requires scans != [] && numEchos > 0 && layers > 0
  {
    KeptIn(scans, |scans|, row, layers, valid, Width(|scans[0].ranges|, numEchos), filter)
  }

  /** Every row starts with the points kept of its layer and echo, cut at the width. */
  ghost predicate RowsStart(data: seq<Cell>, width: nat, scans: seq<LayerScan>, numEchos: nat, layers: nat, valid: nat,
                            filter: real -> Option<real>)
    requires numEchos > 0
  {
    forall i, e :: 0 <= i < |scans| && 0 <= e < valid ==>
      RowStarts(data, width, RowOf(scans[i].layerOff, e, layers), Cut(PointsOf(scans, i, e, numEchos, filter), width))
  }

  /** Behind the kept points, and in rows of layers that did not come, the cells are those the data had before. */
  ghost predicate BehindIsOld(before: seq<Cell>, data: seq<Cell>, width: nat, scans: seq<LayerScan>, numEchos: nat,
                              layers: nat, valid: nat, filter: real -> Option<real>)
    requires scans != [] && numEchos > 0 && layers > 0
  {
    var w := Width(|scans[0].ranges|, numEchos);
    forall row: nat, c: nat ::
      && row < valid * layers
      && KeptOfRow(scans, row, numEchos, layers, valid, filter) <= c < width ==>
        && Address(row, c, width) < |data| && Address(row, c, w) < |ResizedCells(before, valid * layers * w)|
        && data[Address(row, c, width)] == ResizedCells(before, valid * layers * w)[Address(row, c, w)]
  }

  lemma AllColumns(data: seq<Cell>, width: nat, height: nat)
    requires |data| == height * width
    ensures Shrunk(data, width, data, width, height)
  {
    forall n: nat, c: nat | n < height && c < width
      ensures Address(n, c, width) < |data|
    {
      PairInside(n, c, height, width);
    }
  }

  lemma AllRowsStart(full: seq<Cell>, data: seq<Cell>, width: nat, scans: seq<LayerScan>, numEchos: nat, layers: nat,
                     valid: nat, filter: real -> Option<real>)
    requires scans != [] && 0 < valid <= numEchos && Layered(scans, numEchos, layers, valid)
    requires var w := Width(|scans[0].ranges|, numEchos);
             && Shrunk(full, w, data, width, valid * layers) && |data| == valid * layers * width
             && LayersHold(full, w, scans, |scans|, numEchos, layers, valid, filter)
    ensures RowsStart(data, width, scans, numEchos, layers, valid, filter)
  {
    hide RowHolds, RowStarts, RowOf, EchoPoints, Regular, Layered, Shrunk;
    var w := Width(|scans[0].ranges|, numEchos);
    forall i, e | 0 <= i < |scans| && 0 <= e < valid
      ensures RowStarts(data, width, RowOf(scans[i].layerOff, e, layers),
                        Cut(PointsOf(scans, i, e, numEchos, filter), width))
    {
      LayeredAt(scans, numEchos, layers, valid, i);
      EchoInside(e, scans[i].layerOff, layers, valid, 0);
      ShrunkRowStarts(full, w, data, width, valid * layers, RowOf(scans[i].layerOff, e, layers),
                      PointsOf(scans, i, e, numEchos, filter));
    }
  }

  lemma AllBehind(before: seq<Cell>, full: seq<Cell>, data: seq<Cell>, width: nat, scans: seq<LayerScan>, numEchos: nat,
                  layers: nat, valid: nat, filter: real -> Option<real>)
    requires scans != [] && numEchos > 0 && layers > 0 && width <= Width(|scans[0].ranges|, numEchos)
    requires var w := Width(|scans[0].ranges|, numEchos);
             && Untouched(ResizedCells(before, valid * layers * w), full, scans, |scans|, numEchos, layers, valid,
                          filter)
             && Shrunk(full, w, data, width, valid * layers)
    ensures BehindIsOld(before, data, width, scans, numEchos, layers, valid, filter)
  {
    hide KeptIn, ResizedCells;
  }

  lemma WholeRowStarts(data: seq<Cell>, width: nat, height: nat, row: nat, cells: seq<Cell>)
    requires |data| == height * width && row < height && |cells| <= width && RowHolds(data, width, row, cells)
    ensures RowStarts(data, width, row, Cut(cells, width))
  {
    RowInside(row, width, height, width);
    var first := row * width;
    assert data[first..first + width][..|cells|] == data[first..first + |cells|];
  }

  /** The first points of a row of the full cloud, in the row of the published one. */
  lemma ShrunkRowStarts(before: seq<Cell>, width: nat, after: seq<Cell>, width': nat, height: nat, row: nat,
                        cells: seq<Cell>)
    requires Shrunk(before, width, after, width', height) && row < height && |after| == height * width'
    requires RowHolds(before, width, row, cells)
    ensures RowStarts(after, width', row, Cut(cells, width'))
  {
    hide Shrunk;
    var cut := Cut(cells, width');
    var first := row * width;
    assert before[first..first + |cut|] == before[first..first + |cells|][..|cut|];
    ShrunkRowHolds(before, width, after, width', height, row, cut);
    WholeRowStarts(after, width', height, row, cut);
  }

  /** All points kept of all layers are in their rows. */
  ghost predicate NothingLost(data: seq<Cell>, width: nat, scans: seq<LayerScan>, numEchos: nat, layers: nat,
                              valid: nat, filter: real -> Option<real>)
    requires numEchos > 0
  {
    forall i, e :: 0 <= i < |scans| && 0 <= e < valid ==>
      RowStarts(data, width, RowOf(scans[i].layerOff, e, layers), PointsOf(scans, i, e, numEchos, filter))
  }

  /**
   For every revolution: in the published cloud every kept point of every layer is there, if and only if points are
   not dropped or no layer kept more points of an echo than the last one.
   */
  lemma NothingLostExactly(data: seq<Cell>, width: nat, scans: seq<LayerScan>, numEchos: nat, layers: nat, valid: nat,
                           filter: real -> Option<real>, dropping: bool)
    requires 0 < valid <= numEchos && Layered(scans, numEchos, layers, valid)
    requires width == FinalWidth(scans, numEchos, valid, filter, dropping)
    requires RowsStart(data, width, scans, numEchos, layers, valid, filter)
    ensures var w := Width(|scans[0].ranges|, numEchos);
            NothingLost(data, width, scans, numEchos, layers, valid, filter)
            <==> !dropping
                 || forall i :: 0 <= i < |scans| ==>
                      MostKept(scans[i], valid, w, filter) <= MostKept(scans[|scans| - 1], valid, w, filter)
  {
    hide RowStarts, RowOf, EchoPoints, MostKept, Regular;
    var w := Width(|scans[0].ranges|, numEchos);
    forall i, e | 0 <= i < |scans| && 0 <= e < valid
      ensures RowStarts(data, width, RowOf(scans[i].layerOff, e, layers), PointsOf(scans, i, e, numEchos, filter))
              <==> |PointsOf(scans, i, e, numEchos, filter)| <= width
      ensures |PointsOf(scans, i, e, numEchos, filter)| <= w
    {
      RowStartsFits(data, width, RowOf(scans[i].layerOff, e, layers), PointsOf(scans, i, e, numEchos, filter));
      AtMostAll(scans[i], e, w, filter);
    }
    if dropping {
      forall i | 0 <= i < |scans|
        ensures MostKept(scans[i], valid, w, filter) <= width
                <==> forall e :: 0 <= e < valid ==> |PointsOf(scans, i, e, numEchos, filter)| <= width
      {
        MostKeptBelow(scans, i, numEchos, valid, filter, width);
      }
    }
  }

  lemma MostKeptBelow(scans: seq<LayerScan>, i: nat, numEchos: nat, valid: nat, filter: real -> Option<real>,
                      bound: nat)
    requires i < |scans| && 0 < valid <= numEchos
    ensures MostKept(scans[i], valid, Width(|scans[0].ranges|, numEchos), filter) <= bound
            <==> forall e :: 0 <= e < valid ==> |PointsOf(scans, i, e, numEchos, filter)| <= bound
  {
    hide EchoPoints, MostKept;
    var w := Width(|scans[0].ranges|, numEchos);
    MostKeptIsMost(scans[i], valid, w, filter);
    assert forall e :: 0 <= e < valid ==> PointsOf(scans, i, e, numEchos, filter) == EchoPoints(scans[i], e, w, filter);
  }

  lemma RowStartsFits(data: seq<Cell>, width: nat, row: nat, cells: seq<Cell>)
    requires RowStarts(data, width, row, Cut(cells, width))
    ensures RowStarts(data, width, row, cells) <==> |cells| <= width
  {
  }

  /** Every cell of the published cloud is a point kept in this revolution, or zero. */
  ghost predicate OnlyNew(data: seq<Cell>, width: nat, scans: seq<LayerScan>, numEchos: nat, layers: nat, valid: nat,
                          filter: real -> Option<real>)
    requires scans != [] && numEchos > 0 && layers > 0
  {
    forall row: nat, c: nat ::
      && row < valid * layers
      && KeptOfRow(scans, row, numEchos, layers, valid, filter) <= c < width ==>
        Address(row, c, width) < |data| && data[Address(row, c, width)] == NoPoint
  }

  /** The cells from one column to another are zero. */
  ghost predicate ZeroCells(data: seq<Cell>, row: nat, w: nat, first: nat, width: nat) {
    forall c: nat :: first <= c < width ==> Address(row, c, w) < |data| && data[Address(row, c, w)] == NoPoint
  }

  /**
   For every revolution: the published cloud holds nothing but points kept in this revolution and zeros, if and only if
   every row keeps at least the published width, or the cells behind its points were zero before.
   */
  lemma OnlyNewExactly(before: seq<Cell>, data: seq<Cell>, width: nat, scans: seq<LayerScan>, numEchos: nat,
                       layers: nat, valid: nat, filter: real -> Option<real>)
    requires scans != [] && numEchos > 0 && layers > 0
    requires BehindIsOld(before, data, width, scans, numEchos, layers, valid, filter)
    ensures var w := Width(|scans[0].ranges|, numEchos);
            OnlyNew(data, width, scans, numEchos, layers, valid, filter)
            <==> forall row: nat :: row < valid * layers ==>
                   var kept := KeptOfRow(scans, row, numEchos, layers, valid, filter);
                   width <= kept || ZeroCells(ResizedCells(before, valid * layers * w), row, w, kept, width)
  {
  }

  /**
   One layer of two echoes, of which the second is dropped: its cell in the cloud is the one that was there before.
   */
  lemma DroppedEchoShowsOldCell(before: seq<Cell>, data: seq<Cell>)
    requires |before| == 2
    requires BehindIsOld(before, data, 1, [LayerScan(0, [1.0, -1.0], Plain)], 2, 1, 2, DropNegative)
    ensures var scans := [LayerScan(0, [1.0, -1.0], Plain)];
            Layered(scans, 2, 1, 2) && FinalWidth(scans, 2, 2, DropNegative, true) == 1
    ensures |data| >= 2 && data[1] == before[1]
  {
    var scans := [LayerScan(0, [1.0, -1.0], Plain)];
    var ranges := scans[0].ranges;
    assert 2 / 2 == 1 && Width(2, 2) == 1;
    assert Kept(ranges, 0, 1, 0, DropNegative, Plain) == [] && Kept(ranges, 1, 1, 0, DropNegative, Plain) == [];
    assert Kept(ranges, 0, 1, 1, DropNegative, Plain) == [Plain(0, 0, 1.0)]
           && Kept(ranges, 1, 1, 1, DropNegative, Plain) == [];
    assert |EchoPoints(scans[0], 0, 1, DropNegative)| == 1 && EchoPoints(scans[0], 1, 1, DropNegative) == [];
    assert MostKept(scans[0], 0, 1, DropNegative) == 0 && MostKept(scans[0], 1, 1, DropNegative) == 1;
    assert KeptIn(scans, 1, 1, 1, 2, 1, DropNegative) == 0;
    assert Address(1, 0, 1) == 1 && ResizedCells(before, 2)[1] == before[1];
    assert data[Address(1, 0, 1)] == ResizedCells(before, 2 * 1 * 1)[Address(1, 0, 1)];
  }

  function DropNegative(r: real): Option<real> {
    if r < 0.0 then None else Some(r)
  }

  function Plain(echo: nat, i: nat, r: real): Cell {
    Cell(r, 0.0, 0.0, 0.0)
  }

  /**
   The first two of four layers, with one range each: the first keeps its point, the second, at elevation zero, drops it
   and is the one that publishes: the cloud has no column left.
   */
  lemma LastLayerCutsTheFirst()
    ensures var scans := [LayerScan(0, [1.0], Plain), LayerScan(1, [-1.0], Plain)];
            && Layered(scans, 1, 4, 1) && PointsOf(scans, 0, 0, 1, DropNegative) == [Cell(1.0, 0.0, 0.0, 0.0)]
            && FinalWidth(scans, 1, 1, DropNegative, true) == 0
  {
    var scans := [LayerScan(0, [1.0], Plain), LayerScan(1, [-1.0], Plain)];
    assert 1 / 1 == 1 && Width(1, 1) == 1;
    assert Kept(scans[0].ranges, 0, 1, 0, DropNegative, Plain) == [];
    assert Kept(scans[0].ranges, 0, 1, 1, DropNegative, Plain) == [Plain(0, 0, 1.0)];
    assert Kept(scans[1].ranges, 0, 1, 0, DropNegative, Plain) == [];
    assert Kept(scans[1].ranges, 0, 1, 1, DropNegative, Plain) == [];
    assert MostKept(scans[1], 0, 1, DropNegative) == 0 && EchoPoints(scans[1], 0, 1, DropNegative) == [];
  }

  /** The address of a point, in cells. */
  lemma PointAt(count: nat, layerOff: nat, echo: nat, width: nat, layers: nat, start: nat)
    requires start == RowOf(layerOff, echo, layers) * width
    ensures Offset(count, layerOff, echo, width, layers) / POINT_STEP == start + count
  {
    OffsetOfCell(count, layerOff, echo, width, layers);
  }

  lemma NothingKept(ranges: seq<real>, echo: nat, rangeNum: nat, filter: real -> Option<real>,
                    point: (nat, nat, real) -> Cell)
    requires echo * rangeNum <= |ranges|
    ensures Kept(ranges, echo, rangeNum, 0, filter, point) == []
  {
  }

  lemma KeptMore(ranges: seq<real>, echo: nat, rangeNum: nat, n: nat, filter: real -> Option<real>,
                 point: (nat, nat, real) -> Cell)
    requires echo * rangeNum + n < |ranges|
    ensures 0 <= echo * rangeNum
    ensures var range := filter(ranges[echo * rangeNum + n]);
            Kept(ranges, echo, rangeNum, n + 1, filter, point)
            == Kept(ranges, echo, rangeNum, n, filter, point)
               + if range.Some? then [point(echo, n, range.value)] else []
  {
  }

  lemma RowInside(row: nat, n: nat, height: nat, width: nat)
    requires row < height && n <= width
    ensures row * width + n <= height * width
  {
    MultiplyMonotone(row + 1, height, width);
    assert (row + 1) * width == row * width + width;
  }

  lemma EchoInside(echo: nat, layerOff: nat, layers: nat, valid: nat, rangeNum: nat)
    requires echo < valid && layerOff < layers
    ensures RowOf(layerOff, echo, layers) < valid * layers
    ensures echo * rangeNum + rangeNum <= valid * rangeNum
  {
    PairInside(echo, layerOff, valid, layers);
    RowInside(echo, rangeNum, valid, rangeNum);
  }

  lemma RowsApart(layerOff: nat, echo: nat, layerOff': nat, echo': nat, layers: nat)
    requires layerOff < layers && layerOff' < layers && (layerOff, echo) != (layerOff', echo')
    ensures RowOf(layerOff, echo, layers) != RowOf(layerOff', echo', layers)
  {
    if RowOf(layerOff, echo, layers) == RowOf(layerOff', echo', layers) {
      PairUnique(echo, layerOff, echo', layerOff', layers);
    }
  }

  /** Writing one row leaves the others as they were. */
  lemma RowUntouched(before: seq<Cell>, after: seq<Cell>, width: nat, row: nat, cells: seq<Cell>, written: nat,
                     count: nat)
    requires RowHolds(before, width, row, cells) && OnlyRow(before, after, written * width, count)
    requires row != written && |cells| <= width && count <= width
    ensures RowHolds(after, width, row, cells)
  {
    hide RowHolds, OnlyRow;
    RowsDisjoint(row, written, width);
    SliceUntouched(before, after, width, row, cells, written * width, count);
  }

  lemma SliceUntouched(before: seq<Cell>, after: seq<Cell>, width: nat, row: nat, cells: seq<Cell>, start: nat,
                       count: nat)
    requires RowHolds(before, width, row, cells) && OnlyRow(before, after, start, count)
    requires row * width + |cells| <= start || start + count <= row * width
    ensures RowHolds(after, width, row, cells)
  {
    var first := row * width;
    assert after[first..first + |cells|] == before[first..first + |cells|];
  }

  lemma RowsDisjoint(row: nat, written: nat, width: nat)
    requires row != written
    ensures row * width + width <= written * width || written * width + width <= row * width
  {
    if row < written {
      RowInside(row, width, written, width);
    } else {
      RowInside(written, width, row, width);
    }
  }

  lemma CellsApart(row: nat, c: nat, written: nat, count: nat, width: nat)
    requires row != written && c < width && count <= width
    ensures !(written * width <= row * width + c < written * width + count)
  {
    RowsDisjoint(row, written, width);
  }

  // ---- shrinking ----

  /** What the rows of the smaller cloud hold. */
  ghost predicate Shrunk(before: seq<Cell>, width: nat, after: seq<Cell>, width': nat, height: nat) {
    forall n: nat, c: nat :: n < height && c < width' ==>
      && Address(n, c, width') < |after| && Address(n, c, width) < |before|
      && after[Address(n, c, width')] == before[Address(n, c, width)]
  }

  lemma CellShrunk(before: seq<Cell>, width: nat, after: seq<Cell>, width': nat, height: nat, row: nat, c: nat)
    requires Shrunk(before, width, after, width', height) && row < height && c < width'
    ensures 0 <= row * width' + c < |after| && 0 <= row * width + c < |before|
    ensures after[row * width' + c] == before[row * width + c]
  {
    assert after[Address(row, c, width')] == before[Address(row, c, width)];
  }

  lemma NoRows(before: seq<Cell>, width: nat, after: seq<Cell>, width': nat)
    ensures Shrunk(before, width, after, width', 0)
  {
  }

  lemma OneRowMore(before: seq<Cell>, width: nat, done: seq<Cell>, after: seq<Cell>, width': nat, n: nat)
    requires Shrunk(before, width, done, width', n) && |after| == |done|
    requires n * width' + width' <= |after| && n * width + width' <= |before|
    requires forall c :: 0 <= c < width' ==> after[Address(n, c, width')] == before[Address(n, c, width)]
    requires forall c :: 0 <= c < n * width' ==> after[c] == done[c]
    ensures Shrunk(before, width, after, width', n + 1)
  {
    forall m: nat, c: nat | m < n + 1 && c < width'
      ensures Address(m, c, width') < |after| && Address(m, c, width) < |before|
      ensures after[Address(m, c, width')] == before[Address(m, c, width)]
    {
      if m < n {
        EarlierRow(m, c, n, width');
        assert done[Address(m, c, width')] == before[Address(m, c, width)];
      }
    }
  }

  /** Points of a row that fit the new width stay. */
  lemma ShrunkRowHolds(before: seq<Cell>, width: nat, after: seq<Cell>, width': nat, height: nat, row: nat,
                       cells: seq<Cell>)
    requires Shrunk(before, width, after, width', height) && row < height && |after| == height * width'
    requires RowHolds(before, width, row, cells) && |cells| <= width'
    ensures RowHolds(after, width', row, cells)
  {
    hide Shrunk;
    RowInside(row, |cells|, height, width');
    var row', row0 := after[row * width'..row * width' + |cells|], before[row * width..row * width + |cells|];
    forall c | 0 <= c < |cells|
      ensures row'[c] == row0[c]
    {
      CellShrunk(before, width, after, width', height, row, c);
    }
    assert row' == row0;
  }

  // ---- ranges and intensities of the same echo ----

  /** Valid echoes in increasing order. */
  ghost predicate Selection(valid: seq<nat>, numEchos: nat) {
    && (forall i :: 0 <= i < |valid| ==> valid[i] < numEchos)
    && forall i, j :: 0 <= i < j < |valid| ==> valid[i] < valid[j]
  }

  lemma {:induction false} SelectionGrows(valid: seq<nat>, numEchos: nat, i: nat, j: nat)
    requires Selection(valid, numEchos) && i <= j < |valid|
    ensures valid[i] + (j - i) <= valid[j] && i <= valid[i]
    decreases j
  {
    if i < j {
      SelectionGrows(valid, numEchos, i, j - 1);
    } else if i > 0 {
      SelectionGrows(valid, numEchos, 0, i - 1);
    }
  }

  /**
   A point combines the range at index echo * rangeNum + i with the intensity at valid[echo] * rangeNum + i.
   They belong to the same echo for every valid echo if and only if the valid echoes are the first ones.
   */
  lemma RangeMatchesIntensity(valid: seq<nat>, numEchos: nat, rangeNum: nat)
    requires Selection(valid, numEchos) && valid != [] && rangeNum > 0
    ensures (forall e, i :: 0 <= e < |valid| && 0 <= i < rangeNum ==>
               Address(e, i, rangeNum) == Address(valid[e], i, rangeNum))
            <==> valid[|valid| - 1] == |valid| - 1
  {
    var last := |valid| - 1;
    if valid[last] == last {
      forall e, i | 0 <= e < |valid| && 0 <= i < rangeNum
        ensures Address(e, i, rangeNum) == Address(valid[e], i, rangeNum)
      {
        SelectionGrows(valid, numEchos, e, last);
      }
    } else {
      SelectionGrows(valid, numEchos, last, last);
      MultiplyMonotone(last + 1, valid[last], rangeNum);
      assert (last + 1) * rangeNum == last * rangeNum + rangeNum;
      assert Address(last, 0, rangeNum) != Address(valid[last], 0, rangeNum);
    }
  }

  /** The second of two echoes alone is valid: ranges of the first echo meet intensities of the second. */
  lemma SecondEchoMismatch(rangeNum: nat)
    requires rangeNum > 0
    ensures Selection([1], 2) && Address(0, 0, rangeNum) == 0 && Address([1][0], 0, rangeNum) == rangeNum
  {
  }
}
