/**
 Rotations by roll, pitch and yaw over the reals: 3x3 matrices, quaternions, and the shortcut of
 adding yaw to the azimuth. An angle is given by its cosine and sine.
 */
module Rotation {

  datatype Angle = Angle(cos: real, sin: real)

  datatype Vector = Vector(x: real, y: real, z: real)

  datatype Matrix = Matrix(
    m00: real, m01: real, m02: real,
    m10: real, m11: real, m12: real,
    m20: real, m21: real, m22: real)

  datatype Quaternion = Quaternion(x: real, y: real, z: real, w: real)

  const Zero := Angle(1.0, 0.0)
  const Identity := Matrix(1.0, 0.0, 0.0, 0.0, 1.0, 0.0, 0.0, 0.0, 1.0)

  predicate Unit(a: Angle) {
    a.cos * a.cos + a.sin * a.sin == 1.0
  }

  function Sum(a: Angle, b: Angle): Angle {
    Angle(a.cos * b.cos - a.sin * b.sin, a.sin * b.cos + a.cos * b.sin)
  }

  /** The angle whose half is given. */
  function Double(half: Angle): Angle {
    Sum(half, half)
  }

  function RotX(roll: Angle): Matrix {
    Matrix(1.0, 0.0, 0.0, 0.0, roll.cos, -roll.sin, 0.0, roll.sin, roll.cos)
  }

  function RotY(pitch: Angle): Matrix {
    Matrix(pitch.cos, 0.0, pitch.sin, 0.0, 1.0, 0.0, -pitch.sin, 0.0, pitch.cos)
  }

  function RotZ(yaw: Angle): Matrix {
    Matrix(yaw.cos, -yaw.sin, 0.0, yaw.sin, yaw.cos, 0.0, 0.0, 0.0, 1.0)
  }

  function Inner(a0: real, a1: real, a2: real, b0: real, b1: real, b2: real): real {
    a0 * b0 + a1 * b1 + a2 * b2
  }

  function Multiply(a: Matrix, b: Matrix): Matrix {
    Matrix(
      Inner(a.m00, a.m01, a.m02, b.m00, b.m10, b.m20),
      Inner(a.m00, a.m01, a.m02, b.m01, b.m11, b.m21),
      Inner(a.m00, a.m01, a.m02, b.m02, b.m12, b.m22),
      Inner(a.m10, a.m11, a.m12, b.m00, b.m10, b.m20),
      Inner(a.m10, a.m11, a.m12, b.m01, b.m11, b.m21),
      Inner(a.m10, a.m11, a.m12, b.m02, b.m12, b.m22),
      Inner(a.m20, a.m21, a.m22, b.m00, b.m10, b.m20),
      Inner(a.m20, a.m21, a.m22, b.m01, b.m11, b.m21),
      Inner(a.m20, a.m21, a.m22, b.m02, b.m12, b.m22))
  }

  function Transpose(a: Matrix): Matrix {
    Matrix(a.m00, a.m10, a.m20, a.m01, a.m11, a.m21, a.m02, a.m12, a.m22)
  }

  function Dot(u: Vector, v: Vector): real {
    Inner(u.x, u.y, u.z, v.x, v.y, v.z)
  }

  function Cross(u: Vector, v: Vector): Vector {
    Vector(u.y * v.z - u.z * v.y, u.z * v.x - u.x * v.z, u.x * v.y - u.y * v.x)
  }

  /** The signed volume spanned by three vectors. */
  function Volume(u: Vector, v: Vector, w: Vector): real {
    Dot(u, Cross(v, w))
  }

  function Row0(a: Matrix): Vector { Vector(a.m00, a.m01, a.m02) }

  function Row1(a: Matrix): Vector { Vector(a.m10, a.m11, a.m12) }

  function Row2(a: Matrix): Vector { Vector(a.m20, a.m21, a.m22) }

  function Det(a: Matrix): real {
    Volume(Row0(a), Row1(a), Row2(a))
  }

  function Apply(a: Matrix, v: Vector): Vector {
    Vector(Dot(v, Row0(a)), Dot(v, Row1(a)), Dot(v, Row2(a)))
  }

  function EulerToRot3x3(roll: Angle, pitch: Angle, yaw: Angle): Matrix {
    Multiply(Multiply(RotZ(yaw), RotY(pitch)), RotX(roll))
  }

  /** The quaternion computed from half angles. */
  function EulerZYXToQuaternion(roll: Angle, pitch: Angle, yaw: Angle): Quaternion {
    var cy, sy, cp, sp, cr, sr := yaw.cos, yaw.sin, pitch.cos, pitch.sin, roll.cos, roll.sin;
    Quaternion(
      sr * cp * cy - cr * sp * sy,
      cr * sp * cy + sr * cp * sy,
      cr * cp * sy - sr * sp * cy,
      cr * cp * cy + sr * sp * sy)
  }

  function SquaredNorm(q: Quaternion): real {
    q.w * q.w + q.x * q.x + q.y * q.y + q.z * q.z
  }

  /** The x part of a quaternion product; the y and z parts follow by turning the axes. */
  function AxisPart(aw: real, ax: real, ay: real, az: real, bw: real, bx: real, by': real, bz: real): real {
    aw * bx + ax * bw + ay * bz - az * by'
  }

  function RealPart(aw: real, ax: real, ay: real, az: real, bw: real, bx: real, by': real, bz: real): real {
    aw * bw - ax * bx - ay * by' - az * bz
  }

  function Compose(a: Quaternion, b: Quaternion): Quaternion {
    Quaternion(
      AxisPart(a.w, a.x, a.y, a.z, b.w, b.x, b.y, b.z),
      AxisPart(a.w, a.y, a.z, a.x, b.w, b.y, b.z, b.x),
      AxisPart(a.w, a.z, a.x, a.y, b.w, b.z, b.x, b.y),
      RealPart(a.w, a.x, a.y, a.z, b.w, b.x, b.y, b.z))
  }

  function Diagonal(w: real, x: real, y: real, z: real): real {
    w * w + x * x - y * y - z * z
  }

  function Behind(w: real, x: real, y: real, z: real): real {
    2.0 * (x * y - z * w)
  }

  function Ahead(w: real, x: real, y: real, z: real): real {
    2.0 * (x * y + z * w)
  }

  /** The rotation matrix of a unit quaternion. */
  function RotationOf(q: Quaternion): Matrix {
    Matrix(
      1.0 - 2.0 * (q.y * q.y + q.z * q.z), Behind(q.w, q.x, q.y, q.z), Ahead(q.w, q.z, q.x, q.y),
      Ahead(q.w, q.x, q.y, q.z), 1.0 - 2.0 * (q.x * q.x + q.z * q.z), Behind(q.w, q.y, q.z, q.x),
      Behind(q.w, q.z, q.x, q.y), Ahead(q.w, q.y, q.z, q.x), 1.0 - 2.0 * (q.x * q.x + q.y * q.y))
  }

  /** The same matrix without use of the unit norm; it scales with the squared norm. */
  function Homogeneous(q: Quaternion): Matrix {
    Matrix(
      Diagonal(q.w, q.x, q.y, q.z), Behind(q.w, q.x, q.y, q.z), Ahead(q.w, q.z, q.x, q.y),
      Ahead(q.w, q.x, q.y, q.z), Diagonal(q.w, q.y, q.z, q.x), Behind(q.w, q.y, q.z, q.x),
      Behind(q.w, q.z, q.x, q.y), Ahead(q.w, q.y, q.z, q.x), Diagonal(q.w, q.z, q.x, q.y))
  }

  function QuaternionX(a: Angle): Quaternion { Quaternion(a.sin, 0.0, 0.0, a.cos) }

  function QuaternionY(a: Angle): Quaternion { Quaternion(0.0, a.sin, 0.0, a.cos) }

  function QuaternionZ(a: Angle): Quaternion { Quaternion(0.0, 0.0, a.sin, a.cos) }

  // ---- quaternions against matrices ----

  lemma NormExpanded(pw: real, px: real, py: real, pz: real, qw: real, qx: real, qy: real, qz: real)
    ensures SquaredNorm(Quaternion(pw * qx + px * qw + py * qz - pz * qy, pw * qy + py * qw + pz * qx - px * qz,
                                   pw * qz + pz * qw + px * qy - py * qx, pw * qw - px * qx - py * qy - pz * qz))
            == (pw * pw + px * px + py * py + pz * pz) * (qw * qw + qx * qx + qy * qy + qz * qz)
  {
  }

  lemma EqualFactors(a: real, b: real, c: real, d: real)
    requires a == c && b == d
    ensures a * b == c * d
  {
  }

  lemma ComposeNorm(a: Quaternion, b: Quaternion)
    ensures SquaredNorm(Compose(a, b)) == SquaredNorm(a) * SquaredNorm(b)
  {
    NormExpanded(a.w, a.x, a.y, a.z, b.w, b.x, b.y, b.z);
    EqualFactors(SquaredNorm(a), SquaredNorm(b),
                 a.w * a.w + a.x * a.x + a.y * a.y + a.z * a.z, b.w * b.w + b.x * b.x + b.y * b.y + b.z * b.z);
    hide SquaredNorm;
  }

  lemma DiagonalExpanded(pw: real, px: real, py: real, pz: real, qw: real, qx: real, qy: real, qz: real)
    ensures var x, y := pw * qx + px * qw + py * qz - pz * qy, pw * qy + py * qw + pz * qx - px * qz;
            var z, w := pw * qz + pz * qw + px * qy - py * qx, pw * qw - px * qx - py * qy - pz * qz;
            Diagonal(w, x, y, z)
            == Inner(pw * pw + px * px - py * py - pz * pz,
                     2.0 * (px * py - pz * pw),
                     2.0 * (pz * px + py * pw),
                     qw * qw + qx * qx - qy * qy - qz * qz,
                     2.0 * (qx * qy + qz * qw),
                     2.0 * (qz * qx - qy * qw))
  {
  }

  lemma DiagonalEntry(pw: real, px: real, py: real, pz: real, qw: real, qx: real, qy: real, qz: real)
    ensures var x, y := AxisPart(pw, px, py, pz, qw, qx, qy, qz), AxisPart(pw, py, pz, px, qw, qy, qz, qx);
            var z, w := AxisPart(pw, pz, px, py, qw, qz, qx, qy), RealPart(pw, px, py, pz, qw, qx, qy, qz);
            Diagonal(w, x, y, z)
            == Inner(Diagonal(pw, px, py, pz), Behind(pw, px, py, pz), Ahead(pw, pz, px, py),
                     Diagonal(qw, qx, qy, qz), Ahead(qw, qx, qy, qz), Behind(qw, qz, qx, qy))
  {
    DiagonalExpanded(pw, px, py, pz, qw, qx, qy, qz);
    assert AxisPart(pw, px, py, pz, qw, qx, qy, qz) == pw * qx + px * qw + py * qz - pz * qy;
    assert AxisPart(pw, py, pz, px, qw, qy, qz, qx) == pw * qy + py * qw + pz * qx - px * qz;
    assert AxisPart(pw, pz, px, py, qw, qz, qx, qy) == pw * qz + pz * qw + px * qy - py * qx;
    assert RealPart(pw, px, py, pz, qw, qx, qy, qz) == pw * qw - px * qx - py * qy - pz * qz;
    assert Diagonal(pw, px, py, pz) == pw * pw + px * px - py * py - pz * pz;
    assert Behind(pw, px, py, pz) == 2.0 * (px * py - pz * pw);
    assert Ahead(pw, pz, px, py) == 2.0 * (pz * px + py * pw);
    assert Diagonal(qw, qx, qy, qz) == qw * qw + qx * qx - qy * qy - qz * qz;
    assert Ahead(qw, qx, qy, qz) == 2.0 * (qx * qy + qz * qw);
    assert Behind(qw, qz, qx, qy) == 2.0 * (qz * qx - qy * qw);
    hide *;
  }

  lemma BehindExpanded(pw: real, px: real, py: real, pz: real, qw: real, qx: real, qy: real, qz: real)
    ensures var x, y := pw * qx + px * qw + py * qz - pz * qy, pw * qy + py * qw + pz * qx - px * qz;
            var z, w := pw * qz + pz * qw + px * qy - py * qx, pw * qw - px * qx - py * qy - pz * qz;
            Behind(w, x, y, z)
            == Inner(pw * pw + px * px - py * py - pz * pz,
                     2.0 * (px * py - pz * pw),
                     2.0 * (pz * px + py * pw),
                     2.0 * (qx * qy - qz * qw),
                     qw * qw + qy * qy - qz * qz - qx * qx,
                     2.0 * (qy * qz + qx * qw))
  {
  }

  lemma BehindEntry(pw: real, px: real, py: real, pz: real, qw: real, qx: real, qy: real, qz: real)
    ensures var x, y := AxisPart(pw, px, py, pz, qw, qx, qy, qz), AxisPart(pw, py, pz, px, qw, qy, qz, qx);
            var z, w := AxisPart(pw, pz, px, py, qw, qz, qx, qy), RealPart(pw, px, py, pz, qw, qx, qy, qz);
            Behind(w, x, y, z)
            == Inner(Diagonal(pw, px, py, pz), Behind(pw, px, py, pz), Ahead(pw, pz, px, py),
                     Behind(qw, qx, qy, qz), Diagonal(qw, qy, qz, qx), Ahead(qw, qy, qz, qx))
  {
    BehindExpanded(pw, px, py, pz, qw, qx, qy, qz);
    assert AxisPart(pw, px, py, pz, qw, qx, qy, qz) == pw * qx + px * qw + py * qz - pz * qy;
    assert AxisPart(pw, py, pz, px, qw, qy, qz, qx) == pw * qy + py * qw + pz * qx - px * qz;
    assert AxisPart(pw, pz, px, py, qw, qz, qx, qy) == pw * qz + pz * qw + px * qy - py * qx;
    assert RealPart(pw, px, py, pz, qw, qx, qy, qz) == pw * qw - px * qx - py * qy - pz * qz;
    assert Diagonal(pw, px, py, pz) == pw * pw + px * px - py * py - pz * pz;
    assert Behind(pw, px, py, pz) == 2.0 * (px * py - pz * pw);
    assert Ahead(pw, pz, px, py) == 2.0 * (pz * px + py * pw);
    assert Behind(qw, qx, qy, qz) == 2.0 * (qx * qy - qz * qw);
    assert Diagonal(qw, qy, qz, qx) == qw * qw + qy * qy - qz * qz - qx * qx;
    assert Ahead(qw, qy, qz, qx) == 2.0 * (qy * qz + qx * qw);
    hide *;
  }

  lemma AheadExpanded(pw: real, px: real, py: real, pz: real, qw: real, qx: real, qy: real, qz: real)
    ensures var x, y := pw * qx + px * qw + py * qz - pz * qy, pw * qy + py * qw + pz * qx - px * qz;
            var z, w := pw * qz + pz * qw + px * qy - py * qx, pw * qw - px * qx - py * qy - pz * qz;
            Ahead(w, x, y, z)
            == Inner(2.0 * (px * py + pz * pw),
                     pw * pw + py * py - pz * pz - px * px,
                     2.0 * (py * pz - px * pw),
                     qw * qw + qx * qx - qy * qy - qz * qz,
                     2.0 * (qx * qy + qz * qw),
                     2.0 * (qz * qx - qy * qw))
  {
  }

  lemma AheadEntry(pw: real, px: real, py: real, pz: real, qw: real, qx: real, qy: real, qz: real)
    ensures var x, y := AxisPart(pw, px, py, pz, qw, qx, qy, qz), AxisPart(pw, py, pz, px, qw, qy, qz, qx);
            var z, w := AxisPart(pw, pz, px, py, qw, qz, qx, qy), RealPart(pw, px, py, pz, qw, qx, qy, qz);
            Ahead(w, x, y, z)
            == Inner(Ahead(pw, px, py, pz), Diagonal(pw, py, pz, px), Behind(pw, py, pz, px),
                     Diagonal(qw, qx, qy, qz), Ahead(qw, qx, qy, qz), Behind(qw, qz, qx, qy))
  {
    AheadExpanded(pw, px, py, pz, qw, qx, qy, qz);
    assert AxisPart(pw, px, py, pz, qw, qx, qy, qz) == pw * qx + px * qw + py * qz - pz * qy;
    assert AxisPart(pw, py, pz, px, qw, qy, qz, qx) == pw * qy + py * qw + pz * qx - px * qz;
    assert AxisPart(pw, pz, px, py, qw, qz, qx, qy) == pw * qz + pz * qw + px * qy - py * qx;
    assert RealPart(pw, px, py, pz, qw, qx, qy, qz) == pw * qw - px * qx - py * qy - pz * qz;
    assert Ahead(pw, px, py, pz) == 2.0 * (px * py + pz * pw);
    assert Diagonal(pw, py, pz, px) == pw * pw + py * py - pz * pz - px * px;
    assert Behind(pw, py, pz, px) == 2.0 * (py * pz - px * pw);
    assert Diagonal(qw, qx, qy, qz) == qw * qw + qx * qx - qy * qy - qz * qz;
    assert Ahead(qw, qx, qy, qz) == 2.0 * (qx * qy + qz * qw);
    assert Behind(qw, qz, qx, qy) == 2.0 * (qz * qx - qy * qw);
    hide *;
  }

  lemma Turned(a0: real, a1: real, a2: real, b0: real, b1: real, b2: real)
    ensures Inner(a0, a1, a2, b0, b1, b2) == Inner(a1, a2, a0, b1, b2, b0)
    ensures Inner(a0, a1, a2, b0, b1, b2) == Inner(a2, a0, a1, b2, b0, b1)
  {
  }

  lemma RealPartTurned(a: Quaternion, b: Quaternion)
    ensures RealPart(a.w, a.x, a.y, a.z, b.w, b.x, b.y, b.z) == RealPart(a.w, a.y, a.z, a.x, b.w, b.y, b.z, b.x)
    ensures RealPart(a.w, a.x, a.y, a.z, b.w, b.x, b.y, b.z) == RealPart(a.w, a.z, a.x, a.y, b.w, b.z, b.x, b.y)
  {
  }

  /** Composing quaternions multiplies their matrices. */
  lemma ComposeRotation(a: Quaternion, b: Quaternion)
    ensures Homogeneous(Compose(a, b)) == Multiply(Homogeneous(a), Homogeneous(b))
  {
    hide Inner, AxisPart, RealPart, Diagonal, Behind, Ahead;
    DiagonalEntry(a.w, a.x, a.y, a.z, b.w, b.x, b.y, b.z);
    BehindEntry(a.w, a.x, a.y, a.z, b.w, b.x, b.y, b.z);
    AheadEntry(a.w, a.x, a.y, a.z, b.w, b.x, b.y, b.z);
    DiagonalEntry(a.w, a.y, a.z, a.x, b.w, b.y, b.z, b.x);
    BehindEntry(a.w, a.y, a.z, a.x, b.w, b.y, b.z, b.x);
    AheadEntry(a.w, a.y, a.z, a.x, b.w, b.y, b.z, b.x);
    DiagonalEntry(a.w, a.z, a.x, a.y, b.w, b.z, b.x, b.y);
    BehindEntry(a.w, a.z, a.x, a.y, b.w, b.z, b.x, b.y);
    AheadEntry(a.w, a.z, a.x, a.y, b.w, b.z, b.x, b.y);
    RealPartTurned(a, b);
    var m, n := Homogeneous(a), Homogeneous(b);
    Turned(m.m00, m.m01, m.m02, n.m02, n.m12, n.m22);
    Turned(m.m10, m.m11, m.m12, n.m01, n.m11, n.m21);
    Turned(m.m10, m.m11, m.m12, n.m02, n.m12, n.m22);
    Turned(m.m20, m.m21, m.m22, n.m00, n.m10, n.m20);
    Turned(m.m20, m.m21, m.m22, n.m01, n.m11, n.m21);
    Turned(m.m20, m.m21, m.m22, n.m02, n.m12, n.m22);
  }

  lemma UnitDiagonal(q: Quaternion)
    requires SquaredNorm(q) == 1.0
    ensures Diagonal(q.w, q.x, q.y, q.z) == 1.0 - 2.0 * (q.y * q.y + q.z * q.z)
    ensures Diagonal(q.w, q.y, q.z, q.x) == 1.0 - 2.0 * (q.x * q.x + q.z * q.z)
    ensures Diagonal(q.w, q.z, q.x, q.y) == 1.0 - 2.0 * (q.x * q.x + q.y * q.y)
  {
  }

  lemma UnitHomogeneous(q: Quaternion)
    requires SquaredNorm(q) == 1.0
    ensures RotationOf(q) == Homogeneous(q)
  {
    hide SquaredNorm, Diagonal, Behind, Ahead;
    UnitDiagonal(q);
  }

  lemma AxisRotations(half: Angle)
    requires Unit(half)
    ensures Homogeneous(QuaternionX(half)) == RotX(Double(half))
    ensures Homogeneous(QuaternionY(half)) == RotY(Double(half))
    ensures Homogeneous(QuaternionZ(half)) == RotZ(Double(half))
  {
  }

  lemma EulerIsComposition(roll: Angle, pitch: Angle, yaw: Angle)
    ensures EulerZYXToQuaternion(roll, pitch, yaw)
            == Compose(Compose(QuaternionZ(yaw), QuaternionY(pitch)), QuaternionX(roll))
  {
  }

  /**
   The quaternion computed from half angles has norm 1, and its rotation is the matrix product
   rot_z * rot_y * rot_x of the full angles.
   */
  lemma QuaternionAgreesWithMatrix(roll: Angle, pitch: Angle, yaw: Angle)
    requires Unit(roll) && Unit(pitch) && Unit(yaw)
    ensures var q := EulerZYXToQuaternion(roll, pitch, yaw);
            SquaredNorm(q) == 1.0 && RotationOf(q) == EulerToRot3x3(Double(roll), Double(pitch), Double(yaw))
  {
    hide Compose, Homogeneous, Multiply, RotationOf, EulerZYXToQuaternion, Double, RotX, RotY, RotZ;
    var qx, qy, qz := QuaternionX(roll), QuaternionY(pitch), QuaternionZ(yaw);
    EulerIsComposition(roll, pitch, yaw);
    ComposeNorm(qz, qy);
    ComposeNorm(Compose(qz, qy), qx);
    UnitHomogeneous(EulerZYXToQuaternion(roll, pitch, yaw));
    ComposeRotation(qz, qy);
    ComposeRotation(Compose(qz, qy), qx);
    AxisRotations(roll);
    AxisRotations(pitch);
    AxisRotations(yaw);
  }

  // ---- the matrix is a rotation ----

  ghost predicate IsRotation(a: Matrix) {
    Multiply(a, Transpose(a)) == Identity && Multiply(Transpose(a), a) == Identity && Det(a) == 1.0
  }

  /** One entry of a triple product, bracketed either way. */
  lemma TripleEntry(a0: real, a1: real, a2: real, b: Matrix, c0: real, c1: real, c2: real)
    ensures Inner(Inner(a0, a1, a2, b.m00, b.m10, b.m20), Inner(a0, a1, a2, b.m01, b.m11, b.m21),
                  Inner(a0, a1, a2, b.m02, b.m12, b.m22), c0, c1, c2)
            == Inner(a0, a1, a2, Inner(b.m00, b.m01, b.m02, c0, c1, c2), Inner(b.m10, b.m11, b.m12, c0, c1, c2),
                     Inner(b.m20, b.m21, b.m22, c0, c1, c2))
  {
  }

  lemma MultiplyAssociates(a: Matrix, b: Matrix, c: Matrix)
    ensures Multiply(Multiply(a, b), c) == Multiply(a, Multiply(b, c))
  {
    hide Inner;
    TripleEntry(a.m00, a.m01, a.m02, b, c.m00, c.m10, c.m20);
    TripleEntry(a.m00, a.m01, a.m02, b, c.m01, c.m11, c.m21);
    TripleEntry(a.m00, a.m01, a.m02, b, c.m02, c.m12, c.m22);
    TripleEntry(a.m10, a.m11, a.m12, b, c.m00, c.m10, c.m20);
    TripleEntry(a.m10, a.m11, a.m12, b, c.m01, c.m11, c.m21);
    TripleEntry(a.m10, a.m11, a.m12, b, c.m02, c.m12, c.m22);
    TripleEntry(a.m20, a.m21, a.m22, b, c.m00, c.m10, c.m20);
    TripleEntry(a.m20, a.m21, a.m22, b, c.m01, c.m11, c.m21);
    TripleEntry(a.m20, a.m21, a.m22, b, c.m02, c.m12, c.m22);
  }

  lemma TransposeProduct(a: Matrix, b: Matrix)
    ensures Transpose(Multiply(a, b)) == Multiply(Transpose(b), Transpose(a))
  {
  }

  /** The combination of the rows of b with the given weights. */
  function Weighted(c: Vector, b: Matrix): Vector {
    Vector(Inner(c.x, c.y, c.z, b.m00, b.m10, b.m20),
           Inner(c.x, c.y, c.z, b.m01, b.m11, b.m21),
           Inner(c.x, c.y, c.z, b.m02, b.m12, b.m22))
  }

  lemma DotWeighted(c: Vector, b: Matrix, v: Vector)
    ensures Dot(Weighted(c, b), v) == Inner(c.x, c.y, c.z, Dot(Row0(b), v), Dot(Row1(b), v), Dot(Row2(b), v))
  {
    TripleEntry(c.x, c.y, c.z, b, v.x, v.y, v.z);
  }

  lemma VolumeExpanded(u: Vector, v: Vector, w: Vector)
    ensures Volume(u, v, w) == (u.x * v.y * w.z + u.y * v.z * w.x + u.z * v.x * w.y)
                             - (u.x * v.z * w.y + u.y * v.x * w.z + u.z * v.y * w.x)
  {
    var c := Cross(v, w);
    assert u.x * c.x == u.x * v.y * w.z - u.x * v.z * w.y;
    assert u.y * c.y == u.y * v.z * w.x - u.y * v.x * w.z;
    assert u.z * c.z == u.z * v.x * w.y - u.z * v.y * w.x;
  }

  lemma VolumeTurned(u: Vector, v: Vector, w: Vector)
    ensures Volume(u, v, w) == Volume(v, w, u) == Volume(w, u, v) == -Volume(v, u, w)
  {
    VolumeExpanded(u, v, w);
    VolumeExpanded(v, w, u);
    VolumeExpanded(w, u, v);
    VolumeExpanded(v, u, w);
    hide Volume;
  }

  lemma VolumeFlat(u: Vector, v: Vector)
    ensures Volume(u, u, v) == Volume(u, v, u) == Volume(v, u, u) == 0.0
  {
  }

  lemma VolumeWeighted(c: Vector, b: Matrix, u: Vector, v: Vector)
    ensures Volume(Weighted(c, b), u, v)
            == Inner(c.x, c.y, c.z, Volume(Row0(b), u, v), Volume(Row1(b), u, v), Volume(Row2(b), u, v))
  {
    hide Inner, Dot, Cross, Weighted;
    DotWeighted(c, b, Cross(u, v));
  }

  /** The volume of two rows and a combination picks the weight of the third row. */
  lemma VolumeOfRows(b: Matrix, j: Vector)
    ensures Volume(Weighted(j, b), Row1(b), Row2(b)) == j.x * Det(b)
    ensures Volume(Weighted(j, b), Row2(b), Row0(b)) == j.y * Det(b)
    ensures Volume(Weighted(j, b), Row0(b), Row1(b)) == j.z * Det(b)
  {
    hide Volume, Weighted, Row0, Row1, Row2;
    var r0, r1, r2 := Row0(b), Row1(b), Row2(b);
    VolumeWeighted(j, b, r1, r2);
    VolumeWeighted(j, b, r2, r0);
    VolumeWeighted(j, b, r0, r1);
    VolumeTurned(r0, r1, r2);
    VolumeFlat(r0, r1);
    VolumeFlat(r0, r2);
    VolumeFlat(r1, r0);
    VolumeFlat(r1, r2);
    VolumeFlat(r2, r0);
    VolumeFlat(r2, r1);
  }

  lemma VolumeOfRow(b: Matrix, i: Vector, j: Vector)
    ensures Volume(Row0(b), Weighted(i, b), Weighted(j, b)) == Cross(i, j).x * Det(b)
    ensures Volume(Row1(b), Weighted(i, b), Weighted(j, b)) == Cross(i, j).y * Det(b)
    ensures Volume(Row2(b), Weighted(i, b), Weighted(j, b)) == Cross(i, j).z * Det(b)
  {
    hide Volume, Weighted, Row0, Row1, Row2, Det;
    var r0, r1, r2, wi, wj := Row0(b), Row1(b), Row2(b), Weighted(i, b), Weighted(j, b);
    VolumeOfRows(b, j);
    VolumeWeighted(i, b, wj, r0);
    VolumeWeighted(i, b, wj, r1);
    VolumeWeighted(i, b, wj, r2);
    VolumeTurned(r0, wi, wj);
    VolumeTurned(r1, wi, wj);
    VolumeTurned(r2, wi, wj);
    VolumeTurned(r0, wj, r1);
    VolumeTurned(r1, wj, r2);
    VolumeTurned(r2, wj, r0);
    VolumeFlat(r0, wj);
    VolumeFlat(r1, wj);
    VolumeFlat(r2, wj);
    VolumeTurned(wj, r0, r1);
    VolumeTurned(wj, r1, r2);
    VolumeTurned(wj, r2, r0);
  }

  lemma DetProduct(a: Matrix, b: Matrix)
    ensures Det(Multiply(a, b)) == Det(a) * Det(b)
  {
    var u, v, w := Row0(a), Row1(a), Row2(a);
    assert Row0(Multiply(a, b)) == Weighted(u, b);
    assert Row1(Multiply(a, b)) == Weighted(v, b);
    assert Row2(Multiply(a, b)) == Weighted(w, b);
    VolumeOfWeighted(u, v, w, b);
  }

  lemma VolumeOfWeighted(u: Vector, v: Vector, w: Vector, b: Matrix)
    ensures Volume(Weighted(u, b), Weighted(v, b), Weighted(w, b)) == Volume(u, v, w) * Det(b)
  {
    hide Weighted, Row0, Row1, Row2, Det, Cross;
    var d, x := Det(b), Cross(v, w);
    VolumeOfRow(b, v, w);
    assert Volume(u, v, w) == Inner(u.x, u.y, u.z, x.x, x.y, x.z);
    hide Volume;
    VolumeWeighted(u, b, Weighted(v, b), Weighted(w, b));
  }

  lemma IdentityNeutral(a: Matrix)
    ensures Multiply(a, Identity) == a && Multiply(Identity, a) == a
  {
  }

  /** Rotations are closed under multiplication. */
  lemma RotationProduct(a: Matrix, b: Matrix)
    requires IsRotation(a) && IsRotation(b)
    ensures IsRotation(Multiply(a, b))
  {
    hide Multiply, Transpose, Det;
    var at, bt := Transpose(a), Transpose(b);
    TransposeProduct(a, b);
    DetProduct(a, b);
    calc {
      Multiply(Multiply(a, b), Multiply(bt, at));
      { MultiplyAssociates(a, b, Multiply(bt, at)); MultiplyAssociates(b, bt, at); IdentityNeutral(at); }
      Multiply(a, at);
      Identity;
    }
    calc {
      Multiply(Multiply(bt, at), Multiply(a, b));
      { MultiplyAssociates(bt, at, Multiply(a, b)); MultiplyAssociates(at, a, b); IdentityNeutral(b); }
      Multiply(bt, b);
      Identity;
    }
  }

  lemma UnitRows(c: real, s: real)
    requires c * c + s * s == 1.0
    ensures Inner(0.0, c, s, 0.0, c, s) == Inner(c, 0.0, s, c, 0.0, s) == Inner(c, s, 0.0, c, s, 0.0) == 1.0
    ensures Inner(0.0, -s, c, 0.0, c, s) == Inner(-s, 0.0, c, c, 0.0, s) == Inner(-s, c, 0.0, c, s, 0.0) == 0.0
    ensures Inner(0.0, c, s, 0.0, -s, c) == Inner(c, 0.0, s, -s, 0.0, c) == Inner(c, s, 0.0, -s, c, 0.0) == 0.0
  {
    assert (-s) * c == -(s * c) && (-s) * (-s) == s * s;
  }

  lemma ZeroRows(c: real, s: real)
    ensures Inner(1.0, 0.0, 0.0, 0.0, c, s) == Inner(0.0, c, s, 1.0, 0.0, 0.0) == 0.0
    ensures Inner(0.0, 1.0, 0.0, c, 0.0, s) == Inner(c, 0.0, s, 0.0, 1.0, 0.0) == 0.0
    ensures Inner(0.0, 0.0, 1.0, c, s, 0.0) == Inner(c, s, 0.0, 0.0, 0.0, 1.0) == 0.0
    ensures Inner(1.0, 0.0, 0.0, 1.0, 0.0, 0.0) == 1.0
    ensures Inner(0.0, 1.0, 0.0, 0.0, 1.0, 0.0) == 1.0
    ensures Inner(0.0, 0.0, 1.0, 0.0, 0.0, 1.0) == 1.0
  {
  }

  lemma AxisDet(a: Angle)
    requires Unit(a)
    ensures Det(RotX(a)) == 1.0 && Det(RotY(a)) == 1.0 && Det(RotZ(a)) == 1.0
  {
    var x, y, z := RotX(a), RotY(a), RotZ(a);
    assert a.cos * a.cos - (-a.sin) * a.sin == 1.0;
    assert Cross(Row1(x), Row2(x)) == Vector(1.0, 0.0, 0.0);
    assert Cross(Row2(y), Row0(y)) == Vector(0.0, 1.0, 0.0);
    assert Cross(Row0(z), Row1(z)) == Vector(0.0, 0.0, 1.0);
    VolumeTurned(Row0(y), Row1(y), Row2(y));
    VolumeTurned(Row0(z), Row1(z), Row2(z));
    hide Cross;
  }

  lemma AxisIsRotation(a: Angle)
    requires Unit(a)
    ensures IsRotation(RotX(a)) && IsRotation(RotY(a)) && IsRotation(RotZ(a))
  {
    hide Det, Inner;
    AxisDet(a);
    var c, s := a.cos, a.sin;
    assert (-s) * (-s) == s * s;
    UnitRows(c, s);
    UnitRows(c, -s);
    UnitRows(s, c);
    UnitRows(-s, c);
    ZeroRows(c, s);
    ZeroRows(c, -s);
    ZeroRows(s, c);
    ZeroRows(-s, c);
    assert -(-s) == s;
  }

  /** The matrix from roll, pitch and yaw is orthogonal with determinant 1. */
  lemma EulerIsRotation(roll: Angle, pitch: Angle, yaw: Angle)
    requires Unit(roll) && Unit(pitch) && Unit(yaw)
    ensures IsRotation(EulerToRot3x3(roll, pitch, yaw))
  {
    hide IsRotation, Multiply, RotX, RotY, RotZ;
    AxisIsRotation(roll);
    AxisIsRotation(pitch);
    AxisIsRotation(yaw);
    RotationProduct(RotZ(yaw), RotY(pitch));
    RotationProduct(Multiply(RotZ(yaw), RotY(pitch)), RotX(roll));
  }

  function SquaredDistance(u: Vector, v: Vector): real {
    (u.x - v.x) * (u.x - v.x) + (u.y - v.y) * (u.y - v.y) + (u.z - v.z) * (u.z - v.z)
  }

  function Minus(u: Vector, v: Vector): Vector {
    Vector(u.x - v.x, u.y - v.y, u.z - v.z)
  }

  lemma ApplyProduct(a: Matrix, b: Matrix, v: Vector)
    ensures Apply(Multiply(a, b), v) == Apply(a, Apply(b, v))
  {
    TripleEntry(a.m00, a.m01, a.m02, b, v.x, v.y, v.z);
    TripleEntry(a.m10, a.m11, a.m12, b, v.x, v.y, v.z);
    TripleEntry(a.m20, a.m21, a.m22, b, v.x, v.y, v.z);
  }

  lemma DotTranspose(a: Matrix, u: Vector, v: Vector)
    ensures Dot(Apply(a, u), v) == Dot(u, Apply(Transpose(a), v))
  {
  }

  lemma ApplyMinus(a: Matrix, u: Vector, v: Vector)
    ensures Minus(Apply(a, u), Apply(a, v)) == Apply(a, Minus(u, v))
  {
  }

  /** Rotations preserve distances. */
  lemma DistancePreserved(a: Matrix, u: Vector, v: Vector)
    requires IsRotation(a)
    ensures SquaredDistance(Apply(a, u), Apply(a, v)) == SquaredDistance(u, v)
  {
    var d := Minus(u, v);
    assert Apply(Identity, d) == d;
    hide Apply, Multiply, Transpose, Det;
    ApplyMinus(a, u, v);
    DotTranspose(a, d, Apply(a, d));
    ApplyProduct(Transpose(a), a, d);
    assert SquaredDistance(u, v) == Dot(d, d);
    assert SquaredDistance(Apply(a, u), Apply(a, v))
           == Dot(Minus(Apply(a, u), Apply(a, v)), Minus(Apply(a, u), Apply(a, v)));
  }
}
