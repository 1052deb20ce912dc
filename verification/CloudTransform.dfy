/**
 The transform of a point cloud by a configured pose (x, y, z, roll, pitch, yaw), and the shortcut that adds
 yaw to the azimuth before the conversion to cartesian coordinates instead of multiplying by a matrix.
 Cosine and sine are a parameter that obeys the addition laws.
 */
module CloudTransform {
  import opened Rotation

  /** 2 to the power of -23, the threshold below which an angle counts as zero. */
  const FLT_EPSILON := 1.0 / 8388608.0

  predicate Adds(angle: real -> Angle, a: real, b: real) {
    angle(a + b) == Sum(angle(a), angle(b))
  }

  ghost predicate Trigonometric(angle: real -> Angle) {
    && angle(0.0) == Zero
    && (forall a :: Unit(angle(a)))
    && (forall a, b :: Adds(angle, a, b))
  }

  datatype Settings = Settings(translation: Vector, applyRotation: bool, rotation: Matrix, azimuthOffset: real)

  datatype Polar = Polar(range: real, azimuth: real, elevation: real)

  function Plus(u: Vector, v: Vector): Vector {
    Vector(u.x + v.x, u.y + v.y, u.z + v.z)
  }

  predicate Small(a: real) {
    -FLT_EPSILON < a < FLT_EPSILON
  }

  /** The point the documentation promises: rotate, then translate. */
  function Posed(angle: real -> Angle, config: seq<real>, v: Vector): Vector
    requires |config| == 6
  {
    Plus(Apply(EulerToRot3x3(angle(config[3]), angle(config[4]), angle(config[5])), v),
         Vector(config[0], config[1], config[2]))
  }

  function PolarToCartesian(angle: real -> Angle, p: Polar, mirror: real): Vector {
    var rangeCos := p.range * angle(p.elevation).cos;
    Vector(rangeCos * angle(p.azimuth).cos * mirror,
           rangeCos * angle(p.azimuth).sin * mirror,
           p.range * angle(p.elevation).sin * mirror)
  }

  /** What one application of the settings does to a cartesian point. */
  function Transformed(s: Settings, v: Vector): Vector {
    Plus(if s.applyRotation then Apply(s.rotation, v) else v, s.translation)
  }

  /** A scan point on its way into the cartesian cloud: azimuth offset, conversion, transform. */
  function Placed(angle: real -> Angle, s: Settings, p: Polar, mirror: real): Vector {
    Transformed(s, PolarToCartesian(angle, p.(azimuth := p.azimuth + s.azimuthOffset), mirror))
  }

  /** Only yaw is configured: the azimuth offset replaces the matrix. */
  predicate YawOnly(config: seq<real>)
    requires |config| == 6
  {
    Small(config[3]) && Small(config[4])
  }

  predicate Exceeds(a: real) {
    a > FLT_EPSILON || -a > FLT_EPSILON
  }

  predicate Unrotated(config: seq<real>)
    requires |config| == 6
  {
    !Exceeds(config[3]) && !Exceeds(config[4]) && !Exceeds(config[5])
  }

  function Configured(angle: real -> Angle, config: seq<real>, cartesianInputOnly: bool): Settings
    requires |config| == 6
  {
    var shift := Vector(config[0], config[1], config[2]);
    var matrix := EulerToRot3x3(angle(config[3]), angle(config[4]), angle(config[5]));
    if cartesianInputOnly then
      if Unrotated(config) then Settings(shift, false, Identity, 0.0) else Settings(shift, true, matrix, 0.0)
    else if YawOnly(config) then
      Settings(shift, false, Identity, config[5])
    else
      Settings(shift, true, matrix, 0.0)
  }

  class SickCloudTransform {
    const angle: real -> Angle
    var translationVector: Vector
    var apply3x3Rotation: bool
    var rotationMatrix: Matrix
    var azimuthOffset: real

    ghost function Current(): Settings
      reads this
    {
      Settings(translationVector, apply3x3Rotation, rotationMatrix, azimuthOffset)
    }

    constructor (angle: real -> Angle)
      ensures this.angle == angle
      ensures Current() == Settings(Vector(0.0, 0.0, 0.0), false, Identity, 0.0)
    {
      this.angle := angle;
      translationVector, apply3x3Rotation, rotationMatrix := Vector(0.0, 0.0, 0.0), false, Identity;
      azimuthOffset := 0.0;
    }

    method Init(config: seq<real>, cartesianInputOnly: bool) returns (ok: bool)
      modifies this
      ensures ok == (|config| == 6)
      ensures Current() == if ok then Configured(angle, config, cartesianInputOnly) else old(Current())
    {
      hide EulerToRot3x3;
      if |config| != 6 {
        return false;
      }
      translationVector := Vector(config[0], config[1], config[2]);
      apply3x3Rotation := false;
      rotationMatrix := Identity;
      azimuthOffset := 0.0;
      if cartesianInputOnly {
        if Exceeds(config[3]) || Exceeds(config[4]) || Exceeds(config[5]) {
          apply3x3Rotation := true;
          rotationMatrix := EulerToRot3x3(angle(config[3]), angle(config[4]), angle(config[5]));
        }
      } else {
        if Small(config[3]) && Small(config[4]) {
          apply3x3Rotation := false;
          rotationMatrix := Identity;
          azimuthOffset := config[5];
        } else {
          apply3x3Rotation := true;
          rotationMatrix := EulerToRot3x3(angle(config[3]), angle(config[4]), angle(config[5]));
          azimuthOffset := 0.0;
        }
      }
      return true;
    }

    method ApplyTransform(x: real, y: real, z: real) returns (x': real, y': real, z': real)
      ensures Vector(x', y', z') == Transformed(Current(), Vector(x, y, z))
    {
      x', y', z' := x, y, z;
      if apply3x3Rotation {
        var m := rotationMatrix;
        var u := x' * m.m00 + y' * m.m01 + z' * m.m02;
        var v := x' * m.m10 + y' * m.m11 + z' * m.m12;
        var w := x' * m.m20 + y' * m.m21 + z' * m.m22;
        x', y', z' := u, v, w;
      }
      x' := x' + translationVector.x;
      y' := y' + translationVector.y;
      z' := z' + translationVector.z;
    }
  }

  // ---- the conversion to cartesian coordinates ----

  const Origin := Vector(0.0, 0.0, 0.0)

  lemma TiltThenTurn(elevation: Angle, azimuth: Angle, r: real)
    ensures Apply(Multiply(RotZ(azimuth), RotY(Angle(elevation.cos, -elevation.sin))), Vector(r, 0.0, 0.0))
            == Vector(azimuth.cos * elevation.cos * r, azimuth.sin * elevation.cos * r, elevation.sin * r)
  {
  }

  lemma Reordered(range: real, c: real, d: real, mirror: real)
    ensures range * c * d * mirror == d * c * (range * mirror) && range * c * mirror == c * (range * mirror)
  {
    assert range * c * mirror == c * (range * mirror);
    assert range * c * d * mirror == d * (range * c * mirror);
    assert d * (c * (range * mirror)) == d * c * (range * mirror);
  }

  /**
   The cartesian point is the beam along the x axis, tilted upwards by the elevation about the y axis and turned by the
   azimuth about the z axis.
   */
  lemma PolarIsRotation(angle: real -> Angle, p: Polar, mirror: real)
    ensures var up := Angle(angle(p.elevation).cos, -angle(p.elevation).sin);
            PolarToCartesian(angle, p, mirror)
            == Apply(Multiply(RotZ(angle(p.azimuth)), RotY(up)), Vector(p.range * mirror, 0.0, 0.0))
  {
    var e, a := angle(p.elevation), angle(p.azimuth);
    TiltThenTurn(e, a, p.range * mirror);
    Reordered(p.range, e.cos, a.cos, mirror);
    Reordered(p.range, e.cos, a.sin, mirror);
    Reordered(p.range, e.sin, 1.0, mirror);
    hide Apply, Multiply, RotZ, RotY;
  }

  lemma UpIsUnit(e: Angle)
    requires Unit(e)
    ensures Unit(Angle(e.cos, -e.sin))
  {
  }

  lemma OnAxis(a: Matrix, r: real)
    ensures Apply(a, Origin) == Origin && SquaredDistance(Vector(r, 0.0, 0.0), Origin) == r * r
  {
  }

  lemma BeamLength(e: Angle, a: Angle, r: real)
    requires Unit(e) && Unit(a)
    ensures var beam := Multiply(RotZ(a), RotY(Angle(e.cos, -e.sin)));
            SquaredDistance(Apply(beam, Vector(r, 0.0, 0.0)), Origin) == r * r
  {
    hide *;
    var up := Angle(e.cos, -e.sin);
    var beam := Multiply(RotZ(a), RotY(up));
    UpIsUnit(e);
    AxisIsRotation(up);
    AxisIsRotation(a);
    RotationProduct(RotZ(a), RotY(up));
    OnAxis(beam, r);
    DistancePreserved(beam, Vector(r, 0.0, 0.0), Origin);
  }

  /** The point is as far from the origin as the range says, and above it exactly if the beam points upwards. */
  lemma PolarKeepsRange(angle: real -> Angle, p: Polar, mirror: real)
    requires Trigonometric(angle)
    ensures SquaredDistance(PolarToCartesian(angle, p, mirror), Origin) == (p.range * mirror) * (p.range * mirror)
    ensures p.range * mirror > 0.0 ==>
              && (PolarToCartesian(angle, p, mirror).z > 0.0 <==> angle(p.elevation).sin > 0.0)
              && (PolarToCartesian(angle, p, mirror).z < 0.0 <==> angle(p.elevation).sin < 0.0)
  {
    AngleIsUnit(angle, p.elevation);
    AngleIsUnit(angle, p.azimuth);
    hide *;
    PolarIsRotation(angle, p, mirror);
    TiltThenTurn(angle(p.elevation), angle(p.azimuth), p.range * mirror);
    BeamLength(angle(p.elevation), angle(p.azimuth), p.range * mirror);
    SignOfProduct(angle(p.elevation).sin, p.range * mirror);
  }

  lemma SignOfProduct(a: real, r: real)
    ensures a * r == r * a
    ensures r > 0.0 ==> (a * r > 0.0 <==> a > 0.0) && (a * r < 0.0 <==> a < 0.0)
  {
    if r > 0.0 && a > 0.0 {
      SameSigns(a, r);
    }
    if r > 0.0 && a < 0.0 {
      SameSigns(-a, r);
      assert (-a) * r == -(a * r);
    }
  }

  // ---- the shortcut ----

  lemma TurnByYaw(k: real, m: real, h: real, p: Angle, y: Angle)
    ensures var s := Sum(p, y);
            Vector(k * s.cos * m, k * s.sin * m, h) == Apply(RotZ(y), Vector(k * p.cos * m, k * p.sin * m, h))
  {
    var a, b := k * p.cos * m, k * p.sin * m;
    assert k * (p.cos * y.cos - p.sin * y.sin) * m == a * y.cos + b * (-y.sin);
    assert k * (p.sin * y.cos + p.cos * y.sin) * m == a * y.sin + b * y.cos;
  }

  /** Adding yaw to the azimuth is a rotation of the cartesian point by the yaw matrix. */
  lemma AzimuthOffsetRotates(angle: real -> Angle, p: Polar, mirror: real, yaw: real)
    requires Trigonometric(angle)
    ensures PolarToCartesian(angle, p.(azimuth := p.azimuth + yaw), mirror)
            == Apply(RotZ(angle(yaw)), PolarToCartesian(angle, p, mirror))
  {
    var a, y := angle(p.azimuth), angle(yaw);
    var k, h := p.range * angle(p.elevation).cos, p.range * angle(p.elevation).sin * mirror;
    TurnByYaw(k, mirror, h, a, y);
    var turned := Sum(a, y);
    assert Adds(angle, p.azimuth, yaw);
    hide Apply, Sum, RotZ;
    assert angle(p.azimuth + yaw) == turned;
    assert PolarToCartesian(angle, p, mirror) == Vector(k * a.cos * mirror, k * a.sin * mirror, h);
    assert PolarToCartesian(angle, p.(azimuth := p.azimuth + yaw), mirror)
        == Vector(k * turned.cos * mirror, k * turned.sin * mirror, h);
    hide PolarToCartesian;
  }

  lemma ZeroRotations()
    ensures RotX(Zero) == Identity && RotY(Zero) == Identity && RotZ(Zero) == Identity
  {
  }

  lemma YawMatrix(yaw: Angle)
    ensures EulerToRot3x3(Zero, Zero, yaw) == RotZ(yaw)
  {
    ZeroRotations();
    IdentityNeutral(RotZ(yaw));
    hide Multiply, RotX, RotY, RotZ;
  }

  lemma ZeroDistance(u: Vector, v: Vector)
    requires SquaredDistance(u, v) == 0.0
    ensures u == v
  {
    SquareZero(u.x - v.x, u.y - v.y, u.z - v.z);
  }

  function Product(a: real, b: real): real {
    a * b
  }

  lemma SameSigns(a: real, b: real)
    requires (a > 0.0 && b > 0.0) || (a < 0.0 && b < 0.0)
    ensures Product(a, b) > 0.0
  {
    assert a * b > 0.0;
  }

  lemma SquareZero(a: real, b: real, c: real)
    requires Product(a, a) + Product(b, b) + Product(c, c) == 0.0
    ensures a == 0.0 && b == 0.0 && c == 0.0
  {
    SquarePositive(a);
    SquarePositive(b);
    SquarePositive(c);
    hide Product;
  }

  lemma SquarePositive(a: real)
    ensures if a == 0.0 then Product(a, a) == 0.0 else Product(a, a) > 0.0
  {
    assert Product(0.0, 0.0) == 0.0;
    hide Product;
    if a != 0.0 {
      SameSigns(a, a);
    }
  }

  lemma RotationInjective(a: Matrix, u: Vector, v: Vector)
    requires IsRotation(a) && Apply(a, u) == Apply(a, v)
    ensures u == v
  {
    hide Apply, IsRotation;
    DistancePreserved(a, u, v);
    ZeroDistance(u, v);
  }

  const QUARTER_TURN := Angle(0.0, 1.0)
  const EX := Vector(1.0, 0.0, 0.0)
  const EY := Vector(0.0, 1.0, 0.0)

  lemma AxisImages(roll: Angle, pitch: Angle)
    ensures Apply(RotX(roll), EX) == EX && Apply(RotX(roll), EY) == Vector(0.0, roll.cos, roll.sin)
    ensures Apply(RotY(pitch), EX) == Vector(pitch.cos, 0.0, -pitch.sin)
    ensures forall v :: Apply(RotY(Zero), v) == v
  {
  }

  /** The yaw matrix alone gives the images of the x and the y axis only if there is no roll and no pitch. */
  lemma OnlyYaw(roll: Angle, pitch: Angle, yaw: Angle)
    requires Unit(yaw)
    requires Apply(EulerToRot3x3(roll, pitch, yaw), EX) == Apply(RotZ(yaw), EX)
    requires Apply(EulerToRot3x3(roll, pitch, yaw), EY) == Apply(RotZ(yaw), EY)
    ensures roll == Zero && pitch == Zero
  {
    AxisImages(roll, pitch);
    hide Apply, Multiply, IsRotation, RotX, RotY, RotZ;
    var x, y, z := RotX(roll), RotY(pitch), RotZ(yaw);
    AxisIsRotation(yaw);
    ApplyProduct(Multiply(z, y), x, EX);
    ApplyProduct(z, y, EX);
    RotationInjective(z, Apply(y, EX), EX);
    assert pitch == Zero;
    ApplyProduct(Multiply(z, y), x, EY);
    ApplyProduct(z, y, Apply(x, EY));
    RotationInjective(z, Apply(x, EY), EY);
  }

  lemma PlusCancels(u: Vector, v: Vector, shift: Vector)
    requires Plus(u, shift) == Plus(v, shift)
    ensures u == v
  {
  }

  lemma AngleIsUnit(angle: real -> Angle, a: real)
    requires Trigonometric(angle)
    ensures Unit(angle(a))
  {
  }

  /** The scan point in direction a whose signed range undoes the mirror factor. */
  function Along(mirror: real, a: Angle): Vector {
    Vector(mirror * 1.0 * a.cos * mirror, mirror * 1.0 * a.sin * mirror, mirror * 0.0 * mirror)
  }

  lemma MirrorCancels(mirror: real)
    requires mirror * mirror == 1.0
    ensures Along(mirror, Zero) == EX && Along(mirror, QUARTER_TURN) == EY
  {
  }

  lemma PolarAlong(angle: real -> Angle, mirror: real, azimuth: real, a: Angle)
    requires angle(0.0) == Zero && angle(azimuth) == a
    ensures PolarToCartesian(angle, Polar(mirror, azimuth, 0.0), mirror) == Along(mirror, a)
  {
  }

  lemma AxisPoints(angle: real -> Angle, mirror: real, quarter: real)
    requires Trigonometric(angle) && mirror * mirror == 1.0 && angle(quarter) == QUARTER_TURN
    ensures PolarToCartesian(angle, Polar(mirror, 0.0, 0.0), mirror) == EX
    ensures PolarToCartesian(angle, Polar(mirror, quarter, 0.0), mirror) == EY
  {
    assert angle(0.0) == Zero;
    hide *;
    MirrorCancels(mirror);
    PolarAlong(angle, mirror, 0.0, Zero);
    PolarAlong(angle, mirror, quarter, QUARTER_TURN);
  }

  /** The condition under which every scan point lands where the configured pose puts it. */
  predicate NothingDropped(angle: real -> Angle, config: seq<real>)
    requires |config| == 6
  {
    !YawOnly(config) || (angle(config[3]) == Zero && angle(config[4]) == Zero)
  }

  lemma PlacedByYaw(angle: real -> Angle, config: seq<real>, p: Polar, mirror: real)
    requires Trigonometric(angle) && |config| == 6 && YawOnly(config)
    ensures Placed(angle, Configured(angle, config, false), p, mirror)
            == Plus(Apply(RotZ(angle(config[5])), PolarToCartesian(angle, p, mirror)),
                    Vector(config[0], config[1], config[2]))
  {
    hide Apply, RotZ, PolarToCartesian, Plus, EulerToRot3x3, Trigonometric;
    AzimuthOffsetRotates(angle, p, mirror, config[5]);
  }

  lemma PlacedPosed(angle: real -> Angle, config: seq<real>, p: Polar, mirror: real)
    requires Trigonometric(angle) && |config| == 6 && NothingDropped(angle, config)
    ensures Placed(angle, Configured(angle, config, false), p, mirror)
            == Posed(angle, config, PolarToCartesian(angle, p, mirror))
  {
    hide Apply, RotZ, PolarToCartesian, Plus, EulerToRot3x3, Trigonometric;
    if YawOnly(config) {
      PlacedByYaw(angle, config, p, mirror);
      YawMatrix(angle(config[5]));
    } else {
      assert p.(azimuth := p.azimuth + 0.0) == p;
    }
  }

  lemma DroppedIsSeen(angle: real -> Angle, config: seq<real>, mirror: real, p: Polar, q: Polar)
    requires Trigonometric(angle) && |config| == 6 && YawOnly(config)
    requires PolarToCartesian(angle, p, mirror) == EX && PolarToCartesian(angle, q, mirror) == EY
    requires Placed(angle, Configured(angle, config, false), p, mirror) == Posed(angle, config, EX)
    requires Placed(angle, Configured(angle, config, false), q, mirror) == Posed(angle, config, EY)
    ensures angle(config[3]) == Zero && angle(config[4]) == Zero
  {
    AngleIsUnit(angle, config[5]);
    hide Apply, RotZ, PolarToCartesian, Plus, EulerToRot3x3, Trigonometric, Placed, Configured;
    var shift, z := Vector(config[0], config[1], config[2]), RotZ(angle(config[5]));
    var e := EulerToRot3x3(angle(config[3]), angle(config[4]), angle(config[5]));
    PlacedByYaw(angle, config, p, mirror);
    PlacedByYaw(angle, config, q, mirror);
    PlusCancels(Apply(z, EX), Apply(e, EX), shift);
    PlusCancels(Apply(z, EY), Apply(e, EY), shift);
    OnlyYaw(angle(config[3]), angle(config[4]), angle(config[5]));
  }

  /**
   The azimuth shortcut is exact: every point of every scan lands where the configured pose puts it, if and
   only if the shortcut is not taken or the two angles it drops are really zero.
   */
  lemma ShortcutIsExact(angle: real -> Angle, config: seq<real>, mirror: real, quarter: real)
    requires Trigonometric(angle) && |config| == 6
    requires mirror * mirror == 1.0 && angle(quarter) == QUARTER_TURN
    ensures (forall p :: Placed(angle, Configured(angle, config, false), p, mirror)
                         == Posed(angle, config, PolarToCartesian(angle, p, mirror)))
            <==> NothingDropped(angle, config)
  {
    hide Placed, Configured, Posed, PolarToCartesian, Trigonometric;
    if NothingDropped(angle, config) {
      forall p ensures Placed(angle, Configured(angle, config, false), p, mirror)
                       == Posed(angle, config, PolarToCartesian(angle, p, mirror))
      {
        PlacedPosed(angle, config, p, mirror);
      }
    } else if forall p :: Placed(angle, Configured(angle, config, false), p, mirror)
                          == Posed(angle, config, PolarToCartesian(angle, p, mirror)) {
      AxisPoints(angle, mirror, quarter);
      DroppedIsSeen(angle, config, mirror, Polar(mirror, 0.0, 0.0), Polar(mirror, quarter, 0.0));
    }
  }

  // ---- clouds that are cartesian from the start ----

  lemma EulerEntries(roll: Angle, pitch: Angle, yaw: Angle)
    ensures var e := EulerToRot3x3(roll, pitch, yaw);
            && e.m00 == yaw.cos * pitch.cos && e.m10 == yaw.sin * pitch.cos && e.m20 == -pitch.sin
            && e.m21 == roll.sin * pitch.cos && e.m22 == roll.cos * pitch.cos
  {
  }

  const HALF_TURN := Angle(-1.0, 0.0)

  lemma HalfTurns()
    ensures EulerToRot3x3(HALF_TURN, HALF_TURN, HALF_TURN) == Identity
  {
  }

  lemma UnitFactor(c: real, a: Angle)
    requires Unit(a) && c * c == 1.0 && a.cos * c == 1.0 && a.sin * c == 0.0
    ensures a == Angle(c, 0.0)
  {
    assert a.sin == a.sin * (c * c) == (a.sin * c) * c;
    assert a.cos == a.cos * (c * c) == (a.cos * c) * c;
  }

  lemma SignOf(c: real)
    requires c * c == 1.0
    ensures c == 1.0 || c == -1.0
  {
    assert (c - 1.0) * (c + 1.0) == 0.0;
  }

  lemma AlignedAngles(roll: Angle, pitch: Angle, yaw: Angle)
    requires Unit(roll) && Unit(pitch) && Unit(yaw)
    requires yaw.cos * pitch.cos == 1.0 && yaw.sin * pitch.cos == 0.0 && pitch.sin == 0.0
    requires roll.cos * pitch.cos == 1.0 && roll.sin * pitch.cos == 0.0
    ensures roll == pitch == yaw == Zero || roll == pitch == yaw == HALF_TURN
  {
    assert pitch.cos * pitch.cos == 1.0;
    hide Unit;
    UnitFactor(pitch.cos, yaw);
    UnitFactor(pitch.cos, roll);
    SignOf(pitch.cos);
  }

  lemma EulerAligned(roll: Angle, pitch: Angle, yaw: Angle)
    requires Unit(roll) && Unit(pitch) && Unit(yaw) && EulerToRot3x3(roll, pitch, yaw) == Identity
    ensures roll == pitch == yaw == Zero || roll == pitch == yaw == HALF_TURN
  {
    hide Unit, EulerToRot3x3;
    EulerEntries(roll, pitch, yaw);
    AlignedAngles(roll, pitch, yaw);
  }

  /** A pose has no rotation exactly when all three angles are zero or all three are half turns. */
  lemma EulerIdentity(roll: Angle, pitch: Angle, yaw: Angle)
    requires Unit(roll) && Unit(pitch) && Unit(yaw)
    ensures EulerToRot3x3(roll, pitch, yaw) == Identity
            <==> (roll == pitch == yaw == Zero || roll == pitch == yaw == HALF_TURN)
  {
    hide *;
    if EulerToRot3x3(roll, pitch, yaw) == Identity {
      EulerAligned(roll, pitch, yaw);
    }
    YawMatrix(Zero);
    ZeroRotations();
    HalfTurns();
  }

  lemma IdentityOnAxes(a: Matrix)
    requires forall v :: Apply(a, v) == v
    ensures a == Identity
  {
    assert Apply(a, EX) == EX && Apply(a, EY) == EY;
    assert Apply(a, Vector(0.0, 0.0, 1.0)) == Vector(0.0, 0.0, 1.0);
  }

  lemma IdentityApplied(v: Vector)
    ensures Apply(Identity, v) == v
  {
  }

  /** For a cartesian input the configured transform is exact unless it leaves out a rotation that is not one. */
  lemma CartesianIsExact(angle: real -> Angle, config: seq<real>)
    requires Trigonometric(angle) && |config| == 6
    ensures (forall v :: Transformed(Configured(angle, config, true), v) == Posed(angle, config, v))
            <==> (!Unrotated(config)
                  || (angle(config[3]) == angle(config[4]) == angle(config[5]) == Zero)
                  || (angle(config[3]) == angle(config[4]) == angle(config[5]) == HALF_TURN))
  {
    var e := EulerToRot3x3(angle(config[3]), angle(config[4]), angle(config[5]));
    AngleIsUnit(angle, config[3]);
    AngleIsUnit(angle, config[4]);
    AngleIsUnit(angle, config[5]);
    hide Unit, Trigonometric;
    EulerIdentity(angle(config[3]), angle(config[4]), angle(config[5]));
    hide EulerToRot3x3, Apply, Plus;
    if Unrotated(config) {
      if e == Identity {
        forall v ensures Transformed(Configured(angle, config, true), v) == Posed(angle, config, v) {
          IdentityApplied(v);
        }
      } else if forall v :: Transformed(Configured(angle, config, true), v) == Posed(angle, config, v) {
        forall v ensures Apply(e, v) == v {
          assert Transformed(Configured(angle, config, true), v) == Posed(angle, config, v);
          PlusCancels(v, Apply(e, v), Vector(config[0], config[1], config[2]));
        }
        IdentityOnAxes(e);
      }
    }
  }

  lemma ShiftKeepsDistance(u: Vector, v: Vector, shift: Vector)
    ensures SquaredDistance(Plus(u, shift), Plus(v, shift)) == SquaredDistance(u, v)
  {
  }

  /** Whatever is configured, the cloud is moved rigidly: distances between its points stay as they are. */
  lemma CloudIsRigid(angle: real -> Angle, config: seq<real>, cartesianInputOnly: bool, u: Vector, v: Vector)
    requires Trigonometric(angle) && |config| == 6
    ensures var s := Configured(angle, config, cartesianInputOnly);
            SquaredDistance(Transformed(s, u), Transformed(s, v)) == SquaredDistance(u, v)
  {
    var s := Configured(angle, config, cartesianInputOnly);
    AngleIsUnit(angle, config[3]);
    AngleIsUnit(angle, config[4]);
    AngleIsUnit(angle, config[5]);
    hide Unit, Trigonometric;
    EulerIsRotation(angle(config[3]), angle(config[4]), angle(config[5]));
    hide EulerToRot3x3, Apply, Plus, IsRotation, SquaredDistance;
    if s.applyRotation {
      DistancePreserved(s.rotation, u, v);
      ShiftKeepsDistance(Apply(s.rotation, u), Apply(s.rotation, v), s.translation);
    } else {
      ShiftKeepsDistance(u, v, s.translation);
    }
  }

  lemma PlacedIsTurned(angle: real -> Angle, s: Settings, p: Polar, mirror: real)
    requires Trigonometric(angle)
    ensures Placed(angle, s, p, mirror)
            == Transformed(s, Apply(RotZ(angle(s.azimuthOffset)), PolarToCartesian(angle, p, mirror)))
  {
    hide Transformed, Apply, RotZ, PolarToCartesian, Trigonometric;
    AzimuthOffsetRotates(angle, p, mirror, s.azimuthOffset);
  }

  /** Scan points keep their distances too, also when yaw goes into the azimuth. */
  lemma ScanIsRigid(angle: real -> Angle, config: seq<real>, p: Polar, q: Polar, mirror: real)
    requires Trigonometric(angle) && |config| == 6
    ensures var s := Configured(angle, config, false);
            SquaredDistance(Placed(angle, s, p, mirror), Placed(angle, s, q, mirror))
            == SquaredDistance(PolarToCartesian(angle, p, mirror), PolarToCartesian(angle, q, mirror))
  {
    hide *;
    var s := Configured(angle, config, false);
    var yaw := RotZ(angle(s.azimuthOffset));
    var u, v := PolarToCartesian(angle, p, mirror), PolarToCartesian(angle, q, mirror);
    AngleIsUnit(angle, s.azimuthOffset);
    PlacedIsTurned(angle, s, p, mirror);
    PlacedIsTurned(angle, s, q, mirror);
    AxisIsRotation(angle(s.azimuthOffset));
    DistancePreserved(yaw, u, v);
    CloudIsRigid(angle, config, false, Apply(yaw, u), Apply(yaw, v));
  }
}
