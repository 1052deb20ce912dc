/** Monitoring fields drawn as fans of triangles: a counting pass sizes the marker, a filling pass writes it. */
module TriangleFan {

  datatype Point = Point(x: real, y: real)

  datatype Color = Color(r: real, g: real, b: real, a: real)

  /** A dynamic field holds two polygons, one behind the other. */
  datatype Field = Field(dynamic: bool, points: seq<Point>, color: Color)

  datatype Polygon = Polygon(points: seq<Point>, color: Color)

  function Dimmed(c: Color): Color {
    Color(c.r * 0.5, c.g * 0.5, c.b * 0.5, c.a)
  }

  /** The polygons a field stands for. */
  function Polygons(f: Field): seq<Polygon> {
    var half := |f.points| / 2;
    if f.dynamic then [Polygon(f.points[..half], Dimmed(f.color)), Polygon(f.points[half..2 * half], f.color)]
    else [Polygon(f.points, f.color)]
  }

  function AllPolygons(fields: seq<Field>): seq<Polygon> {
    if fields == [] then [] else AllPolygons(fields[..|fields| - 1]) + Polygons(fields[|fields| - 1])
  }

  /** Corners of the triangles of one fan, in order. */
  function Fan(p: seq<Point>): (f: seq<Point>)
    ensures |f| == if |p| < 3 then 0 else 3 * (|p| - 2)
  {
    if |p| < 3 then [] else Fan(p[..|p| - 1]) + [p[0], p[|p| - 2], p[|p| - 1]]
  }

  function Fans(ps: seq<Polygon>): seq<Point> {
    if ps == [] then [] else Fans(ps[..|ps| - 1]) + Fan(ps[|ps| - 1].points)
  }

  function Repeat(c: Color, n: nat): (s: seq<Color>)
    ensures |s| == n
  {
    seq(n, _ => c)
  }

  function Colors(ps: seq<Polygon>): (c: seq<Color>)
    ensures |c| == |Fans(ps)|
  {
    if ps == [] then [] else Colors(ps[..|ps| - 1]) + Repeat(ps[|ps| - 1].color, |Fan(ps[|ps| - 1].points)|)
  }

  lemma FansMore(ps: seq<Polygon>, p: Polygon)
    ensures Fans([]) == [] && Colors([]) == []
    ensures Fans(ps + [p]) == Fans(ps) + Fan(p.points)
    ensures Colors(ps + [p]) == Colors(ps) + Repeat(p.color, |Fan(p.points)|)
  {
    hide Fan;
    assert (ps + [p])[..|ps|] == ps;
  }

  lemma {:induction false} FansConcat(a: seq<Polygon>, b: seq<Polygon>)
    ensures Fans(a + b) == Fans(a) + Fans(b) && Colors(a + b) == Colors(a) + Colors(b)
  {
    hide *;
    if b == [] {
      FansMore(a, Polygon([], Color(0.0, 0.0, 0.0, 0.0)));
      assert a + b == a;
    } else {
      var front, last := b[..|b| - 1], b[|b| - 1];
      FansConcat(a, front);
      FansMore(a + front, last);
      FansMore(front, last);
      assert front + [last] == b && a + front + [last] == a + b;
    }
  }

  // ---- triangles by number ----

  /** Triangle t of a fan: the first corner, and the corners t + 1 and t + 2. */
  lemma {:induction false} FanCorners(p: seq<Point>, t: nat)
    requires t + 2 < |p|
    ensures Fan(p)[3 * t] == p[0] && Fan(p)[3 * t + 1] == p[t + 1] && Fan(p)[3 * t + 2] == p[t + 2]
    decreases |p|
  {
    if t + 3 < |p| {
      FanCorners(p[..|p| - 1], t);
    }
  }

  /** The corners and the colour of triangle t. */
  predicate TriangleIs(corners: seq<Point>, colors: seq<Color>, t: nat, a: Point, b: Point, c: Point, color: Color) {
    && 3 * t + 2 < |corners| == |colors|
    && corners[3 * t] == a && corners[3 * t + 1] == b && corners[3 * t + 2] == c
    && colors[3 * t] == colors[3 * t + 1] == colors[3 * t + 2] == color
  }

  /** A plain field is one fan of its own colour. */
  lemma PlainTriangle(f: Field, t: nat)
    requires !f.dynamic && t + 2 < |f.points|
    ensures TriangleIs(Fans(Polygons(f)), Colors(Polygons(f)), t, f.points[0], f.points[t + 1], f.points[t + 2],
                       f.color)
  {
    FanCorners(f.points, t);
    TwoFans(Polygons(f)[0], Polygons(f)[0]);
    hide Fan;
  }

  /** Of two fans the triangles of the second come behind those of the first. */
  lemma TwoFanTriangles(a: Polygon, b: Polygon, t: nat)
    requires |a.points| == |b.points| && t + 2 < |a.points|
    ensures TriangleIs(Fans([a, b]), Colors([a, b]), t, a.points[0], a.points[t + 1], a.points[t + 2], a.color)
    ensures TriangleIs(Fans([a, b]), Colors([a, b]), |a.points| - 2 + t,
                       b.points[0], b.points[t + 1], b.points[t + 2], b.color)
  {
    hide Fan, Fans, Colors, TriangleIs, Repeat;
    FanCorners(a.points, t);
    FanCorners(b.points, t);
    TwoFans(a, b);
    assert |Fan(a.points)| == |Fan(b.points)| == 3 * (|a.points| - 2);
    OneBehindTheOther(Fan(a.points), Fan(b.points), a.color, b.color, t);
  }

  lemma OneBehindTheOther(f: seq<Point>, g: seq<Point>, c: Color, d: Color, t: nat)
    requires 3 * t + 2 < |f| == |g| && |f| % 3 == 0
    ensures TriangleIs(f + g, Repeat(c, |f|) + Repeat(d, |g|), t, f[3 * t], f[3 * t + 1], f[3 * t + 2], c)
    ensures TriangleIs(f + g, Repeat(c, |f|) + Repeat(d, |g|), |f| / 3 + t, g[3 * t], g[3 * t + 1], g[3 * t + 2], d)
  {
    assert 3 * (|f| / 3 + t) == |f| + 3 * t;
  }

  /**
   A dynamic field is two fans, one of each half of its points: the first in half the brightness, the second, whose
   triangles come behind, in its own colour.
   */
  lemma DynamicTriangle(f: Field, t: nat)
    requires f.dynamic && t + 2 < |f.points| / 2
    ensures var half, cs := |f.points| / 2, f.color;
            && TriangleIs(Fans(Polygons(f)), Colors(Polygons(f)), t, f.points[0], f.points[t + 1], f.points[t + 2],
                          Color(cs.r / 2.0, cs.g / 2.0, cs.b / 2.0, cs.a))
            && TriangleIs(Fans(Polygons(f)), Colors(Polygons(f)), half - 2 + t,
                          f.points[half], f.points[half + t + 1], f.points[half + t + 2], cs)
  {
    hide Fan, Fans, Colors, TriangleIs;
    TwoFanTriangles(Polygons(f)[0], Polygons(f)[1], t);
  }

  // ---- counting ----

  function Max(a: int, b: int): int {
    if a < b then b else a
  }

  function Triangles(f: Field): nat {
    if f.dynamic then 2 * Max(0, |f.points| / 2 - 2) else Max(0, |f.points| - 2)
  }

  function TriangleCount(fields: seq<Field>): nat {
    if fields == [] then 0 else TriangleCount(fields[..|fields| - 1]) + Triangles(fields[|fields| - 1])
  }

  method CountTriangles(fields: seq<Field>) returns (nrTriangles: nat)
    ensures nrTriangles == TriangleCount(fields)
  {
    nrTriangles := 0;
    for i := 0 to |fields|
      invariant nrTriangles == TriangleCount(fields[..i])
    {
      assert fields[..i + 1][..i] == fields[..i];
      if fields[i].dynamic {
        nrTriangles := nrTriangles + 2 * Max(0, |fields[i].points| / 2 - 2);
      } else {
        nrTriangles := nrTriangles + Max(0, |fields[i].points| - 2);
      }
    }
    assert fields[..|fields|] == fields;
  }

  lemma TwoFans(a: Polygon, b: Polygon)
    ensures Fans([a]) == Fan(a.points) && Colors([a]) == Repeat(a.color, |Fan(a.points)|)
    ensures Fans([a, b]) == Fan(a.points) + Fan(b.points)
    ensures Colors([a, b]) == Repeat(a.color, |Fan(a.points)|) + Repeat(b.color, |Fan(b.points)|)
  {
    hide Fan;
    assert [a][..0] == [] && [a, b][..1] == [a];
    assert [] + Fan(a.points) == Fan(a.points);
  }

  lemma FanMore(p: seq<Point>, k: nat)
    requires 2 <= k < |p|
    ensures Fan(p[..k + 1]) == Fan(p[..k]) + [p[0], p[k - 1], p[k]]
  {
    assert p[..k + 1][..k] == p[..k];
  }

  /** A fan begins with the fans of its first corners. */
  lemma {:induction false} FanPrefix(p: seq<Point>, k: nat)
    requires k <= |p|
    ensures |Fan(p[..k])| <= |Fan(p)| && Fan(p)[..|Fan(p[..k])|] == Fan(p[..k])
  {
    if k < |p| {
      var front := p[..|p| - 1];
      FanPrefix(front, k);
      assert front[..k] == p[..k];
    } else {
      assert p[..k] == p;
    }
  }

  lemma FanStep(p: seq<Point>, k: nat, c: Color, ps: seq<Point>, cs: seq<Color>)
    requires 2 <= k < |p|
    ensures 3 * (k - 1) <= |Fan(p)|
    ensures ps + Fan(p)[..3 * (k - 2)] + [p[0], p[k - 1], p[k]] == ps + Fan(p)[..3 * (k - 1)]
    ensures cs + Repeat(c, 3 * (k - 2)) + [c, c, c] == cs + Repeat(c, 3 * (k - 1))
  {
    hide Fan;
    FanPrefix(p, k);
    FanPrefix(p, k + 1);
    FanMore(p, k);
  }

  lemma FieldCount(f: Field)
    ensures |Fans(Polygons(f))| == 3 * Triangles(f)
  {
    if f.dynamic {
      TwoFans(Polygons(f)[0], Polygons(f)[1]);
    } else {
      TwoFans(Polygons(f)[0], Polygons(f)[0]);
    }
  }

  /** The counting pass counts exactly the triangles of all fans. */
  lemma {:induction false} CountIsExact(fields: seq<Field>)
    ensures |Fans(AllPolygons(fields))| == |Colors(AllPolygons(fields))| == 3 * TriangleCount(fields)
  {
    hide Triangles, Polygons, Fans, Colors;
    if fields != [] {
      CountIsExact(fields[..|fields| - 1]);
      FieldCount(fields[|fields| - 1]);
      FansConcat(AllPolygons(fields[..|fields| - 1]), Polygons(fields[|fields| - 1]));
    } else {
      NoFans();
    }
  }

  lemma NoFans()
    ensures Fans([]) == [] && Colors([]) == []
  {
  }

  lemma {:induction false} CountMonotone(fields: seq<Field>, i: nat)
    requires i <= |fields|
    ensures TriangleCount(fields[..i]) <= TriangleCount(fields)
    decreases |fields| - i
  {
    hide Triangles;
    if i < |fields| {
      CountMonotone(fields, i + 1);
      assert fields[..i + 1][..i] == fields[..i];
    } else {
      assert fields[..i] == fields;
    }
  }

  // ---- filling ----

  class Marker {
    const points: array<Point>
    const colors: array<Color>

    constructor (size: nat)
      ensures fresh(points) && fresh(colors) && points.Length == colors.Length == size
    {
      points := new Point[size](_ => Point(0.0, 0.0));
      colors := new Color[size](_ => Color(0.0, 0.0, 0.0, 0.0));
    }

    /** What the slots before triangle t hold. */
    ghost predicate Holds(t: nat, ps: seq<Point>, cs: seq<Color>)
      reads points, colors
    {
      && 3 * t == |ps| == |cs| && |ps| <= points.Length == colors.Length
      && points[..3 * t] == ps && colors[..3 * t] == cs
    }

    /** One fan, cut off at nrTriangles. */
    method AppendTrianglePoints(polygon: Polygon, triangleIdx0: nat, nrTriangles: nat, ghost ps: seq<Point>,
                                ghost cs: seq<Color>)
      returns (triangleIdx: nat)
      requires points.Length == colors.Length == 3 * nrTriangles && Holds(triangleIdx0, ps, cs)
      modifies points, colors
      ensures var n := triangleIdx - triangleIdx0;
              && n >= 0 && triangleIdx <= nrTriangles && 3 * n <= |Fan(polygon.points)|
              && (triangleIdx == nrTriangles || 3 * n == |Fan(polygon.points)|)
              && Holds(triangleIdx, ps + Fan(polygon.points)[..3 * n], cs + Repeat(polygon.color, 3 * n))
    {
      Room(triangleIdx0, ps, cs);
      hide Holds, Fan;
      var p, c := polygon.points, polygon.color;
      triangleIdx := triangleIdx0;
      var pointIdx := 2;
      assert ps + Fan(p)[..0] == ps && cs + Repeat(c, 0) == cs;
      while pointIdx < |p| && triangleIdx < nrTriangles
        invariant 2 <= pointIdx && (pointIdx == 2 || pointIdx <= |p|)
        invariant triangleIdx == triangleIdx0 + (pointIdx - 2) <= nrTriangles && 3 * (pointIdx - 2) <= |Fan(p)|
        invariant Holds(triangleIdx, ps + Fan(p)[..3 * (pointIdx - 2)], cs + Repeat(c, 3 * (pointIdx - 2)))
      {
        ghost var n := pointIdx - 2;
        FanStep(p, pointIdx, c, ps, cs);
        AppendTriangle(triangleIdx, p[0], p[pointIdx - 1], p[pointIdx], c, ps + Fan(p)[..3 * n], cs + Repeat(c, 3 * n));
        pointIdx := pointIdx + 1;
        triangleIdx := triangleIdx + 1;
      }
    }

    lemma Room(t: nat, ps: seq<Point>, cs: seq<Color>)
      requires Holds(t, ps, cs)
      ensures 3 * t <= points.Length
    {
    }

    method AppendTriangle(t: nat, a: Point, b: Point, c: Point, color: Color, ghost ps: seq<Point>,
                          ghost cs: seq<Color>)
      requires Holds(t, ps, cs) && 3 * t + 3 <= points.Length
      modifies points, colors
      ensures Holds(t + 1, ps + [a, b, c], cs + [color, color, color])
    {
      assert points[..3 * t] == ps && colors[..3 * t] == cs;
      points[3 * t + 0] := a;
      points[3 * t + 1] := b;
      points[3 * t + 2] := c;
      colors[3 * t + 0] := color;
      colors[3 * t + 1] := color;
      colors[3 * t + 2] := color;
      assert points[..3 * t] == ps && colors[..3 * t] == cs;
      assert points[..3 * t + 3] == points[..3 * t] + [points[3 * t], points[3 * t + 1], points[3 * t + 2]];
      assert colors[..3 * t + 3] == colors[..3 * t] + [colors[3 * t], colors[3 * t + 1], colors[3 * t + 2]];
    }

    method AppendField(f: Field, triangleIdx0: nat, nrTriangles: nat, ghost ps: seq<Point>, ghost cs: seq<Color>)
      returns (triangleIdx: nat)
      requires points.Length == colors.Length == 3 * nrTriangles && Holds(triangleIdx0, ps, cs)
      requires triangleIdx0 + Triangles(f) <= nrTriangles
      modifies points, colors
      ensures triangleIdx == triangleIdx0 + Triangles(f)
      ensures Holds(triangleIdx, ps + Fans(Polygons(f)), cs + Colors(Polygons(f)))
    {
      hide Fan, Holds;
      FieldCount(f);
      var polygons := Polygons(f);
      if f.dynamic {
        TwoFans(polygons[0], polygons[1]);
        triangleIdx := AppendTrianglePoints(polygons[0], triangleIdx0, nrTriangles, ps, cs);
        assert Fan(polygons[0].points)[..|Fan(polygons[0].points)|] == Fan(polygons[0].points);
        ghost var ps1 := ps + Fan(polygons[0].points);
        ghost var cs1 := cs + Repeat(polygons[0].color, |Fan(polygons[0].points)|);
        triangleIdx := AppendTrianglePoints(polygons[1], triangleIdx, nrTriangles, ps1, cs1);
        assert Fan(polygons[1].points)[..|Fan(polygons[1].points)|] == Fan(polygons[1].points);
        assert ps1 + Fan(polygons[1].points) == ps + Fans(polygons);
        assert cs1 + Repeat(polygons[1].color, |Fan(polygons[1].points)|) == cs + Colors(polygons);
      } else {
        TwoFans(polygons[0], polygons[0]);
        triangleIdx := AppendTrianglePoints(polygons[0], triangleIdx0, nrTriangles, ps, cs);
        assert Fan(polygons[0].points)[..|Fan(polygons[0].points)|] == Fan(polygons[0].points);
      }
    }

    /** The filling pass: every slot is written, with the corners and colours of all fans in order. */
    method Fill(fields: seq<Field>, nrTriangles: nat)
      requires points.Length == colors.Length == 3 * nrTriangles && nrTriangles == TriangleCount(fields)
      modifies points, colors
      ensures points[..] == Fans(AllPolygons(fields)) && colors[..] == Colors(AllPolygons(fields))
    {
      hide Triangles, Polygons, Fans, Colors, Holds;
      NoFans();
      HoldsNothing();
      var triangleIdx, i := 0, 0;
      while i < |fields| && triangleIdx < nrTriangles
        invariant 0 <= i <= |fields| && triangleIdx == TriangleCount(fields[..i])
        invariant Holds(triangleIdx, Fans(AllPolygons(fields[..i])), Colors(AllPolygons(fields[..i])))
      {
        assert fields[..i + 1][..i] == fields[..i];
        CountMonotone(fields, i + 1);
        ghost var before := AllPolygons(fields[..i]);
        FansConcat(before, Polygons(fields[i]));
        triangleIdx := AppendField(fields[i], triangleIdx, nrTriangles, Fans(before), Colors(before));
        i := i + 1;
      }
      RestIsEmpty(fields, i);
      HoldsAll(triangleIdx, Fans(AllPolygons(fields)), Colors(AllPolygons(fields)));
    }

    lemma HoldsNothing()
      requires points.Length == colors.Length
      ensures Holds(0, [], [])
    {
    }

    lemma HoldsAll(t: nat, ps: seq<Point>, cs: seq<Color>)
      requires Holds(t, ps, cs) && points.Length == 3 * t
      ensures points[..] == ps && colors[..] == cs
    {
    }
  }

  /** Fields behind the last counted triangle have no triangles. */
  lemma {:induction false} RestIsEmpty(fields: seq<Field>, i: nat)
    requires i <= |fields| && (i == |fields| || TriangleCount(fields[..i]) >= TriangleCount(fields))
    ensures TriangleCount(fields[..i]) == TriangleCount(fields)
    ensures Fans(AllPolygons(fields)) == Fans(AllPolygons(fields[..i]))
            && Colors(AllPolygons(fields)) == Colors(AllPolygons(fields[..i]))
    decreases |fields| - i
  {
    hide Triangles, Polygons, Fans, Colors;
    if i == |fields| {
      assert fields[..i] == fields;
    } else {
      assert fields[..i + 1][..i] == fields[..i];
      CountMonotone(fields, i + 1);
      RestIsEmpty(fields, i + 1);
      FieldCount(fields[i]);
      FansConcat(AllPolygons(fields[..i]), Polygons(fields[i]));
      NoColors(Polygons(fields[i]));
    }
  }

  lemma NoColors(ps: seq<Polygon>)
    requires |Fans(ps)| == 0
    ensures Fans(ps) == [] && Colors(ps) == []
  {
  }

  /** Both passes of createMonFieldMarker. */
  method CreateMonFieldMarker(fields: seq<Field>) returns (marker: Marker)
    ensures marker.points[..] == Fans(AllPolygons(fields)) && marker.colors[..] == Colors(AllPolygons(fields))
    ensures fresh(marker)
  {
    var nrTriangles := CountTriangles(fields);
    marker := new Marker(3 * nrTriangles);
    marker.Fill(fields, nrTriangles);
  }

  // ---- areas ----

  function Cross(a: Point, b: Point): real {
    a.x * b.y - b.x * a.y
  }

  /** Twice the signed area of a triangle. */
  function TriangleArea(a: Point, b: Point, c: Point): real {
    (b.x - a.x) * (c.y - a.y) - (c.x - a.x) * (b.y - a.y)
  }

  /** Twice the signed areas of consecutive triangles, summed. */
  function Area(corners: seq<Point>): real {
    var n := |corners|;
    if n < 3 then 0.0 else Area(corners[..n - 3]) + TriangleArea(corners[n - 3], corners[n - 2], corners[n - 1])
  }

  function Path(p: seq<Point>): real {
    if |p| < 2 then 0.0 else Path(p[..|p| - 1]) + Cross(p[|p| - 2], p[|p| - 1])
  }

  /** Twice the signed area of a polygon, by the shoelace formula. */
  function Shoelace(p: seq<Point>): real {
    if p == [] then 0.0 else Path(p) + Cross(p[|p| - 1], p[0])
  }

  lemma TriangleByCross(a: Point, b: Point, c: Point)
    ensures TriangleArea(a, b, c) == Cross(a, b) + Cross(b, c) + Cross(c, a)
    ensures Cross(a, b) == -Cross(b, a) && Cross(a, a) == 0.0
  {
  }

  /** The triangles of a fan add up to the polygon's area, for any polygon, convex or not. */
  lemma {:induction false} FanArea(p: seq<Point>)
    ensures Area(Fan(p)) == Shoelace(p)
  {
    hide Cross, TriangleArea;
    if |p| < 3 {
      if |p| > 0 {
        TriangleByCross(p[0], p[|p| - 1], p[0]);
        TriangleByCross(p[0], p[0], p[0]);
        assert Path(p[..1]) == 0.0;
      }
    } else {
      var front := p[..|p| - 1];
      FanArea(front);
      TriangleByCross(p[0], p[|p| - 2], p[|p| - 1]);
      TriangleByCross(p[|p| - 2], p[0], p[0]);
      assert Fan(p)[..|Fan(front)|] == Fan(front);
    }
  }

  function ShoelaceSum(ps: seq<Polygon>): real {
    if ps == [] then 0.0 else ShoelaceSum(ps[..|ps| - 1]) + Shoelace(ps[|ps| - 1].points)
  }

  lemma {:induction false} AreaConcat(a: seq<Point>, b: seq<Point>)
    requires |a| % 3 == 0 && |b| % 3 == 0
    ensures Area(a + b) == Area(a) + Area(b)
  {
    hide TriangleArea;
    if b == [] {
      assert a + b == a;
    } else {
      AreaConcat(a, b[..|b| - 3]);
      assert (a + b)[..|a + b| - 3] == a + b[..|b| - 3];
    }
  }

  lemma NoArea()
    ensures Area([]) == 0.0
  {
  }

  lemma FanTriples(p: seq<Point>)
    ensures |Fan(p)| % 3 == 0
  {
    hide Fan;
  }

  lemma SumOfTriples(a: nat, b: nat)
    requires a % 3 == 0 && b % 3 == 0
    ensures (a + b) % 3 == 0
  {
  }

  /** The marker of any list of fields covers exactly the polygons' areas. */
  lemma {:induction false} MarkerArea(ps: seq<Polygon>)
    ensures |Fans(ps)| % 3 == 0 && Area(Fans(ps)) == ShoelaceSum(ps)
  {
    hide Fan, Shoelace, Area;
    NoArea();
    if ps != [] {
      MarkerArea(ps[..|ps| - 1]);
      var front, last := Fans(ps[..|ps| - 1]), Fan(ps[|ps| - 1].points);
      FanArea(ps[|ps| - 1].points);
      FanTriples(ps[|ps| - 1].points);
      AreaConcat(front, last);
      SumOfTriples(|front|, |last|);
    }
  }
}
