/** sensors/attitude_estimator.py: vector algebra, rotations, and the reference frame.
    The maths library is a parameter: its functions, with what is used of them as `Lawful`. */
module Rotation {
  import opened Prelude

  datatype Vec3 = Vec3(x: real, y: real, z: real)

  const ORIGIN := Vec3(0.0, 0.0, 0.0)
  const EX := Vec3(1.0, 0.0, 0.0)
  const EY := Vec3(0.0, 1.0, 0.0)
  const EZ := Vec3(0.0, 0.0, 1.0)

  function Add(a: Vec3, b: Vec3): Vec3
  {
    Vec3(a.x + b.x, a.y + b.y, a.z + b.z)
  }

  function Sub(a: Vec3, b: Vec3): Vec3
  {
    Vec3(a.x - b.x, a.y - b.y, a.z - b.z)
  }

  function Scale(a: Vec3, s: real): Vec3
  {
    Vec3(a.x * s, a.y * s, a.z * s)
  }

  function Dot(a: Vec3, b: Vec3): real
  {
    a.x * b.x + a.y * b.y + a.z * b.z
  }

  function Cross(a: Vec3, b: Vec3): Vec3
  {
    Vec3(a.y * b.z - a.z * b.y, a.z * b.x - a.x * b.z, a.x * b.y - a.y * b.x)
  }

  predicate Unit(a: Vec3)
  {
    Dot(a, a) == 1.0
  }

  datatype Maths = Maths(sqrt: real -> real, cos: real -> real, sin: real -> real, acos: real -> real, pi: real)

  ghost predicate Lawful(m: Maths)
  {
    && (forall x :: x >= 0.0 ==> m.sqrt(x) >= 0.0 && m.sqrt(x) * m.sqrt(x) == x)
    && (forall x :: m.cos(x) * m.cos(x) + m.sin(x) * m.sin(x) == 1.0)
    && (forall x :: 2.0 * (1.0 - m.cos(x)) <= x * x)
    && (forall x :: 0.0 <= x <= m.pi ==> m.sin(x) >= 0.0)
    && (forall x :: -1.0 <= x <= 1.0 ==> 0.0 <= m.acos(x) <= m.pi && m.cos(m.acos(x)) == x)
    && m.pi > 0.0
    && m.cos(m.pi) == -1.0
  }

  function Norm(m: Maths, a: Vec3): real
  {
    m.sqrt(Dot(a, a))
  }

  const TINY := 0.000000001

  /** None for a vector too short to have a direction. */
  function Normalize(m: Maths, a: Vec3): Option<Vec3>
  {
    var n := Norm(m, a);
    if n <= TINY then None else Some(Vec3(a.x / n, a.y / n, a.z / n))
  }

  // ---------------------------------------------------------------- algebra

  lemma DotComm(a: Vec3, b: Vec3)
    ensures Dot(a, b) == Dot(b, a)
  {
  }

  lemma DotAdd(a: Vec3, b: Vec3, c: Vec3)
    ensures Dot(Add(a, b), c) == Dot(a, c) + Dot(b, c)
    ensures Dot(c, Add(a, b)) == Dot(c, a) + Dot(c, b)
  {
  }

  lemma DotSub(a: Vec3, b: Vec3, c: Vec3)
    ensures Dot(Sub(a, b), c) == Dot(a, c) - Dot(b, c)
    ensures Dot(c, Sub(a, b)) == Dot(c, a) - Dot(c, b)
  {
  }

  lemma DotScale(a: Vec3, b: Vec3, s: real)
    ensures Dot(Scale(a, s), b) == s * Dot(a, b)
    ensures Dot(b, Scale(a, s)) == s * Dot(b, a)
  {
    assert a.x * s * b.x == s * (a.x * b.x);
    assert a.y * s * b.y == s * (a.y * b.y);
    assert a.z * s * b.z == s * (a.z * b.z);
  }

  lemma CrossOrthogonal(a: Vec3, b: Vec3)
    ensures Dot(a, Cross(a, b)) == 0.0 && Dot(b, Cross(a, b)) == 0.0
  {
    assert a.x * (a.y * b.z) == a.y * (a.x * b.z);
    assert a.x * (a.z * b.y) == a.z * (a.x * b.y);
    assert a.y * (a.z * b.x) == a.z * (a.y * b.x);
    assert b.x * (a.y * b.z) == b.z * (a.y * b.x);
    assert b.x * (a.z * b.y) == b.y * (a.z * b.x);
    assert b.y * (a.x * b.z) == b.z * (a.x * b.y);
  }

  lemma TripleTurns(k: Vec3, u: Vec3, v: Vec3)
    ensures Dot(u, Cross(k, v)) == -Dot(Cross(k, u), v)
  {
    assert u.x * (k.y * v.z) == k.y * u.x * v.z && u.x * (k.z * v.y) == k.z * u.x * v.y;
    assert u.y * (k.z * v.x) == k.z * u.y * v.x && u.y * (k.x * v.z) == k.x * u.y * v.z;
    assert u.z * (k.x * v.y) == k.x * u.z * v.y && u.z * (k.y * v.x) == k.y * u.z * v.x;
  }

  lemma Lagrange(a: Vec3, b: Vec3, c: Vec3, d: Vec3)
    ensures Dot(Cross(a, b), Cross(c, d)) == Dot(a, c) * Dot(b, d) - Dot(a, d) * Dot(b, c)
  {
  }

  /** (a x b) x a == b (a.a) - a (a.b) */
  lemma CrossBack(a: Vec3, b: Vec3)
    ensures Cross(Cross(a, b), a) == Sub(Scale(b, Dot(a, a)), Scale(a, Dot(a, b)))
  {
    CrossBackX(a, b);
    CrossBackY(a, b);
    CrossBackZ(a, b);
    hide Cross, Dot;
  }

  lemma CrossBackX(a: Vec3, b: Vec3)
    ensures Cross(Cross(a, b), a).x == b.x * Dot(a, a) - a.x * Dot(a, b)
  {
    CrossBackAlong(a.x, a.y, a.z, b.x, b.y, b.z, Cross(a, b).y, Cross(a, b).z, Dot(a, a), Dot(a, b));
    hide Dot;
  }

  lemma CrossBackY(a: Vec3, b: Vec3)
    ensures Cross(Cross(a, b), a).y == b.y * Dot(a, a) - a.y * Dot(a, b)
  {
    CrossBackAlong(a.y, a.z, a.x, b.y, b.z, b.x, Cross(a, b).z, Cross(a, b).x, Dot(a, a), Dot(a, b));
    hide Dot;
  }

  lemma CrossBackZ(a: Vec3, b: Vec3)
    ensures Cross(Cross(a, b), a).z == b.z * Dot(a, a) - a.z * Dot(a, b)
  {
    CrossBackAlong(a.z, a.x, a.y, b.z, b.x, b.y, Cross(a, b).x, Cross(a, b).y, Dot(a, a), Dot(a, b));
    hide Dot;
  }

  /** The first component of that identity; the others are its cyclic shifts. */
  lemma CrossBackAlong(p: real, q: real, r: real, u: real, v: real, w: real, m: real, n: real, aa: real, ab: real)
    requires m == r * u - p * w && n == p * v - q * u
    requires aa == p * p + q * q + r * r && ab == p * u + q * v + r * w
    ensures m * r - n * q == u * aa - p * ab
  {
  }

  // ---------------------------------------------------------------- rotation

  function Rodrigues(v: Vec3, axis: Vec3, c: real, s: real): Vec3
  {
    Add(Add(Scale(v, c), Scale(Cross(axis, v), s)), Scale(axis, Dot(axis, v) * (1.0 - c)))
  }

  /** Rotate by a rotation vector, whose length is the angle. */
  function RotateVector(m: Maths, v: Vec3, rot: Vec3): Vec3
  {
    var angle := Norm(m, rot);
    if angle <= 0.000000000001 then v
    else Rodrigues(v, Scale(rot, 1.0 / angle), m.cos(angle), m.sin(angle))
  }

  /** Dot product of a rotated vector with anything, in terms of four dot products. */
  lemma DotRodrigues(v: Vec3, axis: Vec3, c: real, s: real, w: Vec3)
    ensures Dot(Rodrigues(v, axis, c, s), w)
         == c * Dot(v, w) + s * Dot(Cross(axis, v), w) + Dot(axis, v) * (1.0 - c) * Dot(axis, w)
  {
    var a, b, d := Scale(v, c), Scale(Cross(axis, v), s), Scale(axis, Dot(axis, v) * (1.0 - c));
    DotAdd(Add(a, b), d, w);
    DotAdd(a, b, w);
    DotScale(v, w, c);
    DotScale(Cross(axis, v), w, s);
    DotScale(axis, w, Dot(axis, v) * (1.0 - c));
  }

  /** The component along the axis does not change. */
  lemma AxisComponentKept(v: Vec3, axis: Vec3, c: real, s: real)
    requires Unit(axis)
    ensures Dot(Rodrigues(v, axis, c, s), axis) == Dot(v, axis)
  {
    DotRodrigues(v, axis, c, s, axis);
    CrossOrthogonal(axis, v);
    hide Dot, Cross, Rodrigues;
    DotComm(Cross(axis, v), axis);
    DotComm(v, axis);
    var p := Dot(v, axis);
    assert c * p + s * 0.0 + p * (1.0 - c) * 1.0 == p;
  }

  /** What remains of R(u).R(v) once every dot product has a name: d = u.v, a = k.u, b = k.v, t = (k x u).v. */
  lemma Collect(c: real, s: real, d: real, a: real, b: real, t: real, p: real, q: real)
    requires c * c + s * s == 1.0
    requires p == c * d + s * -t + b * (1.0 - c) * a
    requires q == c * t + s * (d - a * b)
    ensures c * p + s * q + a * (1.0 - c) * b == d
  {
    var ab := a * b;
    assert c * (c * d + s * -t + b * (1.0 - c) * a) == c * c * d - c * s * t + c * ab - c * c * ab;
    assert s * (c * t + s * (d - a * b)) == c * s * t + s * s * d - s * s * ab;
    assert a * (1.0 - c) * b == ab - c * ab;
    assert c * c * d + s * s * d == (c * c + s * s) * d;
    assert c * c * ab + s * s * ab == (c * c + s * s) * ab;
  }

  /** Rodrigues' formula about a unit axis preserves every dot product, hence lengths and angles. */
  lemma RotationPreservesDot(u: Vec3, v: Vec3, axis: Vec3, c: real, s: real)
    requires Unit(axis) && c * c + s * s == 1.0
    ensures Dot(Rodrigues(u, axis, c, s), Rodrigues(v, axis, c, s)) == Dot(u, v)
  {
    var ru, rv := Rodrigues(u, axis, c, s), Rodrigues(v, axis, c, s);
    var ku, kv := Cross(axis, u), Cross(axis, v);
    var d, a, b, t := Dot(u, v), Dot(axis, u), Dot(axis, v), Dot(ku, v);
    DotRodrigues(u, axis, c, s, rv);
    // u . R(v)
    DotRodrigues(v, axis, c, s, u);
    DotComm(u, rv);
    DotComm(v, u);
    TripleTurns(axis, u, v);
    DotComm(kv, u);
    // (k x u) . R(v)
    DotRodrigues(v, axis, c, s, ku);
    DotComm(ku, rv);
    DotComm(v, ku);
    DotComm(kv, ku);
    Lagrange(axis, u, axis, v);
    CrossOrthogonal(axis, u);
    DotComm(u, axis);
    // k . R(v)
    AxisComponentKept(v, axis, c, s);
    DotComm(axis, rv);
    DotComm(v, axis);
    hide Dot, Cross, Rodrigues;
    assert Dot(u, rv) == c * d + s * -t + b * (1.0 - c) * a;
    assert Dot(ku, rv) == c * t + s * (d - a * b);
    assert Dot(axis, rv) == b;
    Collect(c, s, d, a, b, t, Dot(u, rv), Dot(ku, rv));
  }

  // ---------------------------------------------------------------- lengths

  lemma SelfDot(a: Vec3)
    ensures Dot(a, a) >= 0.0
  {
    assert a.x * a.x >= 0.0 && a.y * a.y >= 0.0 && a.z * a.z >= 0.0;
  }

  lemma NormSquared(m: Maths, a: Vec3)
    requires Lawful(m)
    ensures Norm(m, a) >= 0.0 && Norm(m, a) * Norm(m, a) == Dot(a, a)
  {
    SelfDot(a);
    hide Dot;
  }

  lemma RootUnique(p: real, q: real)
    requires p >= 0.0 && q >= 0.0 && p * p == q * q
    ensures p == q
  {
    if p < q {
      StrictSquare(p, q);
    } else if q < p {
      StrictSquare(q, p);
    }
  }

  lemma StrictSquare(p: real, q: real)
    requires 0.0 <= p < q
    ensures p * p < q * q
  {
    PositiveProduct(q - p, q + p);
    DifferenceOfSquares(p, q);
  }

  lemma PositiveProduct(a: real, b: real)
    requires a > 0.0 && b > 0.0
    ensures a * b > 0.0
  {
  }

  lemma DifferenceOfSquares(p: real, q: real)
    ensures (q - p) * (q + p) == q * q - p * p
  {
  }

  lemma RootAbove(p: real, q: real)
    requires p >= 0.0 && q >= 0.0 && p * p > q * q
    ensures p > q
  {
    if p < q {
      StrictSquare(p, q);
    }
  }

  lemma UnitScaled(a: Vec3, n: real)
    requires n > 0.0 && n * n == Dot(a, a)
    ensures Unit(Scale(a, 1.0 / n))
  {
    var q := 1.0 / n;
    Inverse(n);
    DotScale(a, Scale(a, q), q);
    DotScale(a, a, q);
    hide Dot, Scale;
    assert q * (q * (n * n)) == q * n * (q * n);
  }

  lemma ScaleOver(a: Vec3, n: real)
    requires n > 0.0
    ensures Vec3(a.x / n, a.y / n, a.z / n) == Scale(a, 1.0 / n)
  {
    OverIsTimes(a.x, n);
    OverIsTimes(a.y, n);
    OverIsTimes(a.z, n);
  }

  lemma OverIsTimes(x: real, n: real)
    requires n > 0.0
    ensures x / n == x * (1.0 / n)
  {
    Inverse(n);
    assert x / n * n == x;
    assert (x * (1.0 / n)) * n == x * ((1.0 / n) * n);
    assert (x / n - x * (1.0 / n)) * n == 0.0;
  }

  /** Dividing by the length gives a unit vector of the same direction. */
  lemma NormalizedUnit(m: Maths, a: Vec3)
    requires Lawful(m) && Norm(m, a) > TINY
    ensures Normalize(m, a) == Some(Scale(a, 1.0 / Norm(m, a)))
    ensures Unit(Scale(a, 1.0 / Norm(m, a)))
  {
    var n := Norm(m, a);
    NormSquared(m, a);
    UnitScaled(a, n);
    ScaleOver(a, n);
    hide Unit, Norm, Lawful, Scale;
  }

  lemma UnitNormalized(m: Maths, a: Vec3)
    requires Lawful(m) && Unit(a)
    ensures Norm(m, a) == 1.0 && Normalize(m, a) == Some(a)
  {
    NormSquared(m, a);
    hide Lawful, Norm;
    assert Norm(m, a) * Norm(m, a) == 1.0 * 1.0;
    RootUnique(Norm(m, a), 1.0);
  }

  /** Rotating by a rotation vector preserves every dot product, whatever its length, including those too short to apply. */
  lemma RotateVectorPreservesDot(m: Maths, u: Vec3, v: Vec3, rot: Vec3)
    requires Lawful(m)
    ensures Dot(RotateVector(m, u, rot), RotateVector(m, v, rot)) == Dot(u, v)
  {
    var angle := Norm(m, rot);
    NormSquared(m, rot);
    hide Rodrigues, Dot, Norm;
    if angle > 0.000000000001 {
      UnitScaled(rot, angle);
      RotationPreservesDot(u, v, Scale(rot, 1.0 / angle), m.cos(angle), m.sin(angle));
    }
  }

  /** A unit axis times an angle is rotated about that axis by that angle. */
  lemma RotateAboutUnit(m: Maths, v: Vec3, axis: Vec3, angle: real)
    requires Lawful(m) && Unit(axis) && angle > 0.000000000001
    ensures RotateVector(m, v, Scale(axis, angle)) == Rodrigues(v, axis, m.cos(angle), m.sin(angle))
  {
    var rot := Scale(axis, angle);
    NormSquared(m, rot);
    DotScale(axis, rot, angle);
    DotScale(axis, axis, angle);
    hide Lawful, Norm, Dot, Rodrigues;
    RootUnique(Norm(m, rot), angle);
    ScaleBack(axis, angle);
  }

  lemma ScaleBack(a: Vec3, k: real)
    requires k > 0.0
    ensures Scale(Scale(a, k), 1.0 / k) == a && Scale(Scale(a, 1.0 / k), k) == a
  {
    Inverse(k);
    TimesOver(a.x, k, 1.0 / k);
    TimesOver(a.y, k, 1.0 / k);
    TimesOver(a.z, k, 1.0 / k);
  }

  lemma TimesOver(x: real, k: real, q: real)
    requires q * k == 1.0
    ensures x * k * q == x && x * q * k == x
  {
    assert x * k * q == x * (q * k);
    assert x * q * k == x * (q * k);
  }

  // ---------------------------------------------------------------- projecting

  function Rejection(axis: Vec3, normal: Vec3): Vec3
  {
    Sub(axis, Scale(normal, Dot(axis, normal)))
  }

  function ProjectAxis(m: Maths, axis: Vec3, normal: Vec3): Option<Vec3>
  {
    Normalize(m, Rejection(axis, normal))
  }

  lemma RejectionOrthogonal(axis: Vec3, normal: Vec3)
    requires Unit(normal)
    ensures Dot(Rejection(axis, normal), normal) == 0.0
    ensures Dot(Rejection(axis, normal), Rejection(axis, normal)) == Dot(axis, axis) - Dot(axis, normal) * Dot(axis, normal)
  {
    var p := Dot(axis, normal);
    var q := Scale(normal, p);
    DotSub(axis, q, normal);
    DotScale(normal, normal, p);
    DotSub(axis, q, Rejection(axis, normal));
    DotScale(normal, Rejection(axis, normal), p);
    DotComm(normal, Rejection(axis, normal));
    DotSub(axis, q, axis);
    DotScale(normal, axis, p);
    DotComm(axis, Rejection(axis, normal));
    hide Dot, Scale;
  }

  lemma ProjectedAxis(m: Maths, axis: Vec3, normal: Vec3)
    requires Lawful(m) && Unit(normal)
    ensures var a := ProjectAxis(m, axis, normal);
            a.Some? ==> Unit(a.value) && Dot(a.value, normal) == 0.0
  {
    var r := Rejection(axis, normal);
    var n := Norm(m, r);
    if n > TINY {
      NormalizedUnit(m, r);
      RejectionOrthogonal(axis, normal);
      DotScale(r, normal, 1.0 / n);
      hide Dot, Rejection, Unit, Lawful, Norm, Scale;
    }
  }

  /** No unit vector is close to both the x and the y axis: one of the two projections always works. */
  lemma XOrYProjects(m: Maths, normal: Vec3)
    requires Lawful(m) && Unit(normal)
    ensures ProjectAxis(m, EX, normal).Some? || ProjectAxis(m, EY, normal).Some?
  {
    hide Dot, Rejection, Lawful, Norm, Unit, Square;
    var nx, ny := Norm(m, Rejection(EX, normal)), Norm(m, Rejection(EY, normal));
    RejectionLength(m, EX, normal);
    RejectionLength(m, EY, normal);
    SensorAxes(normal);
    if nx <= TINY && ny <= TINY {
      SquareShrinks(nx);
      SquareShrinks(ny);
    }
  }

  function Square(x: real): real
  {
    x * x
  }

  lemma RejectionLength(m: Maths, axis: Vec3, normal: Vec3)
    requires Lawful(m) && Unit(normal)
    ensures var n := Norm(m, Rejection(axis, normal));
            n >= 0.0 && Square(n) == Dot(axis, axis) - Square(Dot(axis, normal))
  {
    NormSquared(m, Rejection(axis, normal));
    RejectionOrthogonal(axis, normal);
    hide Dot, Rejection, Lawful, Norm, Unit;
  }

  lemma SensorAxes(v: Vec3)
    ensures Dot(EX, v) == v.x && Dot(EY, v) == v.y
    ensures Dot(EX, EX) == 1.0 && Dot(EY, EY) == 1.0
    ensures Unit(v) ==> Square(v.x) + Square(v.y) <= 1.0
  {
    DotParts(1.0, 0.0, 0.0, v);
    DotParts(0.0, 1.0, 0.0, v);
    DotParts(1.0, 0.0, 0.0, EX);
    DotParts(0.0, 1.0, 0.0, EY);
    DotParts(v.x, v.y, v.z, v);
    hide Dot;
    SquareNonNegative(v.z);
  }

  lemma DotParts(x: real, y: real, z: real, v: Vec3)
    ensures Dot(Vec3(x, y, z), v) == x * v.x + y * v.y + z * v.z
  {
  }

  lemma SquareNonNegative(x: real)
    ensures x * x >= 0.0
  {
  }

  lemma SquareShrinks(n: real)
    requires 0.0 <= n <= 1.0
    ensures Square(n) <= n
  {
    MulOrder(n, 1.0, n);
    assert n * n <= 1.0 * n;
  }

  // ---------------------------------------------------------------- the rotation from one direction to another

  const NEAR := 0.000000001

  function FlipAxis(m: Maths, src: Vec3): Vec3
  {
    var x := ProjectAxis(m, EX, src);
    var axis := if x.Some? then x else ProjectAxis(m, EY, src);
    if axis.Some? then axis.value else EZ
  }

  /** Rotate v by the smallest rotation that takes src to dst. */
  function RotateBetween(m: Maths, v: Vec3, src: Vec3, dst: Vec3): Vec3
  {
    var dot := Clamp(Dot(src, dst), -1.0, 1.0);
    if dot > 1.0 - NEAR then v
    else if dot < -1.0 + NEAR then RotateVector(m, v, Scale(FlipAxis(m, src), m.pi))
    else
      var axis := Normalize(m, Cross(src, dst));
      if axis.None? then v else RotateVector(m, v, Scale(axis.value, m.acos(dot)))
  }

  /** Whatever it is given, it moves vectors rigidly. */
  lemma RotateBetweenPreservesDot(m: Maths, u: Vec3, v: Vec3, src: Vec3, dst: Vec3)
    requires Lawful(m)
    ensures Dot(RotateBetween(m, u, src, dst), RotateBetween(m, v, src, dst)) == Dot(u, v)
  {
    var dot := Clamp(Dot(src, dst), -1.0, 1.0);
    hide Dot, RotateVector, Normalize, Lawful, Scale, Cross, FlipAxis, Clamp;
    if dot <= 1.0 - NEAR {
      if dot < -1.0 + NEAR {
        RotateVectorPreservesDot(m, u, v, Scale(FlipAxis(m, src), m.pi));
      } else if Normalize(m, Cross(src, dst)).Some? {
        RotateVectorPreservesDot(m, u, v, Scale(Normalize(m, Cross(src, dst)).value, m.acos(dot)));
      }
    }
  }

  /** The length of src x dst is the sine of the angle between them, and is never too short in the general case. */
  lemma CrossNorm(m: Maths, src: Vec3, dst: Vec3)
    requires Lawful(m) && Unit(src) && Unit(dst)
    requires -1.0 + NEAR <= Dot(src, dst) <= 1.0 - NEAR
    ensures var d, n := Dot(src, dst), Norm(m, Cross(src, dst));
            n > TINY && n * n == 1.0 - d * d && n == m.sin(m.acos(d)) && m.acos(d) > 0.000000000001
  {
    var d, n := Dot(src, dst), Norm(m, Cross(src, dst));
    hide Dot, Cross, Lawful, Norm, Unit;
    CrossSquared(m, src, dst);
    AngleOf(m, d);
    RootUnique(n, m.sin(m.acos(d)));
    SineAway(d);
    RootAbove(n, TINY);
  }

  lemma CrossSquared(m: Maths, src: Vec3, dst: Vec3)
    requires Lawful(m) && Unit(src) && Unit(dst)
    ensures var d, n := Dot(src, dst), Norm(m, Cross(src, dst)); n >= 0.0 && n * n == 1.0 - d * d
  {
    hide Dot, Cross, Lawful, Norm;
    NormSquared(m, Cross(src, dst));
    Lagrange(src, dst, src, dst);
    DotComm(src, dst);
  }

  lemma AngleOf(m: Maths, d: real)
    requires Lawful(m) && -1.0 <= d <= 1.0 - NEAR
    ensures var a := m.acos(d);
            a > 0.000000000001 && m.cos(a) == d && m.sin(a) >= 0.0 && m.sin(a) * m.sin(a) == 1.0 - d * d
  {
    var a := m.acos(d);
    assert m.sin(a) >= 0.0 && m.cos(a) == d && 2.0 * (1.0 - d) <= a * a && a >= 0.0;
    assert d * d + m.sin(a) * m.sin(a) == 1.0;
    hide Lawful;
    RootAbove(a, 0.000000000001);
  }

  lemma SineAway(d: real)
    requires -1.0 + NEAR <= d <= 1.0 - NEAR
    ensures 1.0 - d * d > TINY * TINY
  {
    var e := if d >= 0.0 then d else -d;
    assert e * e == d * d;
    MulOrder(e, 1.0 - NEAR, e);
    assert e * e <= (1.0 - NEAR) * e;
  }

  /** Away from the two degenerate cases the source direction lands exactly on the destination. */
  lemma RotateBetweenHits(m: Maths, src: Vec3, dst: Vec3)
    requires Lawful(m) && Unit(src) && Unit(dst)
    requires -1.0 + NEAR <= Dot(src, dst) <= 1.0 - NEAR
    ensures RotateBetween(m, src, src, dst) == dst
  {
    var d, x := Dot(src, dst), Cross(src, dst);
    var n := Norm(m, x);
    CrossNorm(m, src, dst);
    NormalizedUnit(m, x);
    var k := Scale(x, 1.0 / n);
    RotateAboutUnit(m, src, k, m.acos(d));
    assert m.cos(m.acos(d)) == d;
    RodriguesHits(src, dst, n);
    hide Lawful, Norm, Dot, Cross, RotateVector, Normalize, Rodrigues, Scale, Unit;
  }

  lemma RodriguesHits(src: Vec3, dst: Vec3, n: real)
    requires Unit(src) && n > 0.0
    ensures Rodrigues(src, Scale(Cross(src, dst), 1.0 / n), Dot(src, dst), n) == dst
  {
    var x, q, d := Cross(src, dst), 1.0 / n, Dot(src, dst);
    var k := Scale(x, q);
    CrossOrthogonal(src, dst);
    DotComm(src, x);
    DotScale(x, src, q);
    CrossScale(x, src, q);
    CrossBack(src, dst);
    ScaleBack(Cross(x, src), n);
    hide Dot, Cross;
    assert Dot(k, src) == 0.0;
    assert Scale(Cross(k, src), n) == Cross(x, src);
    assert Dot(k, src) * (1.0 - d) == 0.0;
    assert Scale(k, 0.0) == ORIGIN;
    assert Scale(dst, 1.0) == dst;
  }

  lemma CrossScale(a: Vec3, b: Vec3, q: real)
    ensures Cross(Scale(a, q), b) == Scale(Cross(a, b), q)
  {
    var scaled := Scale(a, q);
    MinorScale(a.y, b.z, a.z, b.y, q, scaled.y, scaled.z);
    MinorScale(a.z, b.x, a.x, b.z, q, scaled.z, scaled.x);
    MinorScale(a.x, b.y, a.y, b.x, q, scaled.x, scaled.y);
    CrossParts(a, b);
    CrossParts(scaled, b);
    hide Cross;
    ScaleParts(Cross(a, b), q);
    hide Scale;
  }

  lemma CrossParts(a: Vec3, b: Vec3)
    ensures var c := Cross(a, b);
            c.x == a.y * b.z - a.z * b.y && c.y == a.z * b.x - a.x * b.z && c.z == a.x * b.y - a.y * b.x
  {
  }

  lemma ScaleParts(a: Vec3, q: real)
    ensures Scale(a, q).x == a.x * q && Scale(a, q).y == a.y * q && Scale(a, q).z == a.z * q
  {
  }

  /** One component of it: pq and rq are the scaled p and r. */
  lemma MinorScale(p: real, u: real, r: real, w: real, q: real, pq: real, rq: real)
    requires pq == p * q && rq == r * q
    ensures pq * u - rq * w == (p * u - r * w) * q
  {
    FactorOut(p, u, q);
    FactorOut(r, w, q);
    DifferenceTimes(p * u, r * w, q);
  }

  lemma FactorOut(p: real, u: real, q: real)
    ensures p * q * u == p * u * q
  {
  }

  lemma DifferenceTimes(x: real, y: real, q: real)
    ensures (x - y) * q == x * q - y * q
  {
  }

  /** The axis of the half turn is a unit vector across src; the fixed z axis behind it is never used. */
  lemma FlipAxisAcross(m: Maths, src: Vec3)
    requires Lawful(m) && Unit(src)
    ensures Unit(FlipAxis(m, src)) && Dot(FlipAxis(m, src), src) == 0.0
    ensures FlipAxis(m, src) == if ProjectAxis(m, EX, src).Some? then ProjectAxis(m, EX, src).value
                                else if ProjectAxis(m, EY, src).Some? then ProjectAxis(m, EY, src).value else ORIGIN
  {
    XOrYProjects(m, src);
    ProjectedAxis(m, EX, src);
    ProjectedAxis(m, EY, src);
    hide ProjectAxis, Lawful, Unit, Dot;
  }

  /** Between nearly opposite directions the rotation is a half turn that reverses src. */
  lemma HalfTurnReverses(m: Maths, src: Vec3)
    requires Lawful(m) && Unit(src)
    ensures RotateVector(m, src, Scale(FlipAxis(m, src), m.pi)) == Scale(src, -1.0)
  {
    var k := FlipAxis(m, src);
    FlipAxisAcross(m, src);
    assert 4.0 <= m.pi * m.pi && m.cos(m.pi) == -1.0;
    assert m.sin(m.pi) * m.sin(m.pi) == 0.0;
    RootAbove(m.pi, 1.0);
    RotateAboutUnit(m, src, k, m.pi);
    hide Lawful, FlipAxis, Unit, Dot, Cross, RotateVector;
    RootUnique(Abs(m.sin(m.pi)), 0.0);
    assert Scale(k, Dot(k, src) * (1.0 - -1.0)) == ORIGIN;
    assert Scale(Cross(k, src), 0.0) == ORIGIN;
  }

  lemma ApartSquared(u: Vec3, v: Vec3)
    requires Unit(u) && Unit(v)
    ensures Dot(Sub(u, v), Sub(u, v)) == 2.0 - 2.0 * Dot(u, v)
  {
    DotSub(u, v, Sub(u, v));
    DotSub(u, v, u);
    DotSub(u, v, v);
    DotComm(u, v);
    hide Dot, Sub;
  }

  lemma ReversedApart(u: Vec3, v: Vec3)
    requires Unit(u) && Unit(v)
    ensures Dot(Sub(Scale(u, -1.0), v), Sub(Scale(u, -1.0), v)) == 2.0 + 2.0 * Dot(u, v)
  {
    DotScale(u, v, -1.0);
    DotScale(u, Scale(u, -1.0), -1.0);
    DotScale(u, u, -1.0);
    hide Dot, Sub, Scale;
    ApartSquared(Scale(u, -1.0), v);
  }

  /** In every case src lands on dst to within a squared distance of 2e-9; in the general case exactly. */
  lemma RotateBetweenArrives(m: Maths, src: Vec3, dst: Vec3)
    requires Lawful(m) && Unit(src) && Unit(dst)
    ensures var r := RotateBetween(m, src, src, dst);
            && Dot(Sub(r, dst), Sub(r, dst)) < 2.0 * NEAR
            && (-1.0 + NEAR <= Dot(src, dst) <= 1.0 - NEAR ==> r == dst)
  {
    var d := Dot(src, dst);
    if d > 1.0 - NEAR {
      ApartSquared(src, dst);
      hide Dot, Sub, Lawful;
    } else if d < -1.0 + NEAR {
      HalfTurnReverses(m, src);
      ReversedApart(src, dst);
      hide Dot, Sub, RotateVector, FlipAxis, Scale, Lawful;
    } else {
      RotateBetweenHits(m, src, dst);
      assert Sub(dst, dst) == ORIGIN && Dot(ORIGIN, ORIGIN) == 0.0;
      hide Dot, RotateBetween, Lawful, Sub;
    }
  }

  // ---------------------------------------------------------------- levelling the magnetometer

  function LevelMag(m: Maths, mag: Vec3, referenceAccel: Vec3, gravity: Option<Vec3>, minHorizontal: real): Option<Vec3>
  {
    var reference := Normalize(m, referenceAccel);
    if reference.None? then None
    else
      var g := Normalize(m, Or(gravity, reference.value));
      if g.None? then None
      else
        var leveled := RotateBetween(m, mag, g.value, reference.value);
        var horizontal := Rejection(leveled, reference.value);
        if Norm(m, horizontal) <= minHorizontal then None else Normalize(m, horizontal)
  }

  lemma NormalizeGivesUnit(m: Maths, a: Vec3)
    requires Lawful(m)
    ensures Normalize(m, a).Some? <==> Norm(m, a) > TINY
    ensures Normalize(m, a).Some? ==> Unit(Normalize(m, a).value)
  {
    if Norm(m, a) > TINY {
      NormalizedUnit(m, a);
    }
    hide Unit, Norm;
  }

  /** A levelled field is a unit vector across the reference direction. */
  lemma LevelMagHorizontal(m: Maths, mag: Vec3, referenceAccel: Vec3, gravity: Option<Vec3>, minHorizontal: real)
    requires Lawful(m)
    requires LevelMag(m, mag, referenceAccel, gravity, minHorizontal).Some?
    ensures var h := LevelMag(m, mag, referenceAccel, gravity, minHorizontal).value;
            Unit(h) && Normalize(m, referenceAccel).Some? && Dot(h, Normalize(m, referenceAccel).value) == 0.0
  {
    var reference := Normalize(m, referenceAccel).value;
    var g := Normalize(m, Or(gravity, reference)).value;
    NormalizeGivesUnit(m, referenceAccel);
    ProjectedAxis(m, RotateBetween(m, mag, g, reference), reference);
    hide Lawful, Unit, Dot, RotateBetween, Rejection, Normalize, Norm;
  }

  lemma SameRejection(m: Maths, a: Vec3, n: Vec3, b: Vec3, k: Vec3)
    requires Unit(n) && Unit(k) && Dot(a, a) == Dot(b, b) && Dot(a, n) == Dot(b, k)
    ensures Norm(m, Rejection(a, n)) == Norm(m, Rejection(b, k))
  {
    RejectionOrthogonal(a, n);
    RejectionOrthogonal(b, k);
    hide Dot, Rejection, Unit;
  }

  /** Levelling keeps the strength of the field across gravity, so whether a field is too vertical to use
      does not depend on the vehicle's attitude (away from the degenerate rotations). */
  lemma LevelMagTiltInvariant(m: Maths, mag: Vec3, referenceAccel: Vec3, gravity: Vec3, minHorizontal: real)
    requires Lawful(m)
    requires Normalize(m, referenceAccel).Some? && Normalize(m, gravity).Some?
    requires -1.0 + NEAR <= Dot(Normalize(m, gravity).value, Normalize(m, referenceAccel).value) <= 1.0 - NEAR
    ensures LevelMag(m, mag, referenceAccel, Some(gravity), minHorizontal).Some?
       <==> Norm(m, Rejection(mag, Normalize(m, gravity).value)) > Max(minHorizontal, TINY)
  {
    var reference, g := Normalize(m, referenceAccel).value, Normalize(m, gravity).value;
    var leveled := RotateBetween(m, mag, g, reference);
    NormalizeGivesUnit(m, referenceAccel);
    NormalizeGivesUnit(m, gravity);
    RotateBetweenHits(m, g, reference);
    RotateBetweenPreservesDot(m, mag, mag, g, reference);
    RotateBetweenPreservesDot(m, mag, g, g, reference);
    RejectionOrthogonal(mag, g);
    RejectionOrthogonal(leveled, reference);
    NormalizeGivesUnit(m, Rejection(leveled, reference));
    SameRejection(m, leveled, reference, mag, g);
    hide Lawful, Unit, Dot, RotateBetween, Rejection, Normalize, Norm;
  }

  lemma CauchySchwarz(a: Vec3, b: Vec3)
    ensures Square(Dot(a, b)) <= Product(Dot(a, a), Dot(b, b))
  {
    Lagrange(a, b, a, b);
    SelfDot(Cross(a, b));
    DotComm(a, b);
    hide Dot, Cross;
  }

  /** In every branch, the degenerate ones included, levelling keeps the squared strength across gravity to
      within a part in ten thousand of the squared field: the difference squared is at most 8e-9 of its square. */
  lemma LevelMagTiltBounded(m: Maths, mag: Vec3, referenceAccel: Vec3, gravity: Vec3)
    requires Lawful(m)
    requires Normalize(m, referenceAccel).Some? && Normalize(m, gravity).Some?
    ensures var reference, g := Normalize(m, referenceAccel).value, Normalize(m, gravity).value;
            var after := Norm(m, Rejection(RotateBetween(m, mag, g, reference), reference));
            var before := Norm(m, Rejection(mag, g));
            Square(Square(after) - Square(before)) <= 8.0 * NEAR * Square(Dot(mag, mag))
  {
    hide Lawful, Unit, Dot, RotateBetween, Rejection, Normalize, Norm, Sub, Square, Product;
    var reference, g := Normalize(m, referenceAccel).value, Normalize(m, gravity).value;
    var leveled, turned := RotateBetween(m, mag, g, reference), RotateBetween(m, g, g, reference);
    NormalizeGivesUnit(m, referenceAccel);
    NormalizeGivesUnit(m, gravity);
    RotateBetweenPreservesDot(m, mag, mag, g, reference);
    RotateBetweenPreservesDot(m, mag, g, g, reference);
    RotateBetweenArrives(m, g, reference);
    RejectionLength(m, leveled, reference);
    RejectionLength(m, mag, g);
    var u, w, total := Dot(leveled, reference), Dot(mag, g), Dot(mag, mag);
    var miss := Sub(turned, reference);
    DotSub(turned, reference, leveled);
    CauchySchwarz(leveled, miss);
    CauchySchwarz(leveled, reference);
    CauchySchwarz(mag, g);
    UnitDots(reference, g);
    SelfDot(mag);
    assert Dot(leveled, miss) == w - u;
    AlongBounded(u, w, total, Dot(miss, miss));
  }

  lemma UnitDots(a: Vec3, b: Vec3)
    requires Unit(a) && Unit(b)
    ensures Dot(a, a) == 1.0 && Dot(b, b) == 1.0
  {
  }

  lemma AlongBounded(u: real, w: real, total: real, miss: real)
    requires total >= 0.0 && miss < 2.0 * NEAR
    requires Square(w - u) <= Product(total, miss) && Square(u) <= Product(total, 1.0) && Square(w) <= Product(total, 1.0)
    ensures Square((total - Square(u)) - (total - Square(w))) <= 8.0 * NEAR * Square(total)
  {
    hide Square, Product;
    var near, far, bound := Square(w - u), Square(w + u), Product(total, 2.0 * NEAR);
    SquareSign(w - u);
    SquareSign(w + u);
    ProductMono(total, miss, 2.0 * NEAR);
    ProductOne(total);
    Parallelogram(u, w);
    assert 0.0 <= near <= bound && 0.0 <= far <= 4.0 * total;
    ProductMono(far, near, bound);
    ProductComm(far, near);
    ProductComm(far, bound);
    ProductMono(bound, far, 4.0 * total);
    SquaresApart(u, w);
    EightTimes(total);
    assert (total - Square(u)) - (total - Square(w)) == Square(w) - Square(u);
  }

  lemma SquareSign(x: real)
    ensures Square(x) >= 0.0
  {
    SquareNonNegative(x);
  }

  lemma ProductComm(x: real, y: real)
    ensures Product(x, y) == Product(y, x)
  {
  }

  lemma Parallelogram(u: real, w: real)
    ensures Square(w - u) + Square(w + u) == 2.0 * Square(u) + 2.0 * Square(w)
  {
  }

  lemma SquaresApart(u: real, w: real)
    ensures Square(Square(w) - Square(u)) == Product(Square(w - u), Square(w + u))
  {
    DifferenceOfSquares(u, w);
    SquareOfProduct(w - u, w + u);
    hide Square;
    assert Square(w) - Square(u) == Product(w - u, w + u) by {
      SquareIsProduct(w);
      SquareIsProduct(u);
      assert Product(w - u, w + u) == (w - u) * (w + u);
    }
  }

  lemma SquareIsProduct(x: real)
    ensures Square(x) == x * x
  {
  }

  lemma SquareOfProduct(x: real, y: real)
    ensures Square(Product(x, y)) == Product(Square(x), Square(y))
  {
    assert (x * y) * (x * y) == (x * x) * (y * y);
  }

  lemma EightTimes(total: real)
    ensures Product(Product(total, 2.0 * NEAR), 4.0 * total) == 8.0 * NEAR * Square(total)
  {
  }

  /** With no gravity sample of its own the field is only projected, not turned. */
  lemma LevelMagAtRest(m: Maths, mag: Vec3, referenceAccel: Vec3, minHorizontal: real)
    requires Lawful(m) && Normalize(m, referenceAccel).Some?
    ensures var h := Rejection(mag, Normalize(m, referenceAccel).value);
            LevelMag(m, mag, referenceAccel, None, minHorizontal)
            == (if Norm(m, h) <= minHorizontal then None else Normalize(m, h))
  {
    var reference := Normalize(m, referenceAccel).value;
    NormalizeGivesUnit(m, referenceAccel);
    UnitNormalized(m, reference);
    assert RotateBetween(m, mag, reference, reference) == mag;
    hide Lawful, Unit, Dot, RotateBetween, Rejection, Normalize, Norm;
  }

  // ---------------------------------------------------------------- the vehicle's axes

  /** The configured roll axis is a signed sensor axis, or absent when its name is not known. */
  function RollAxis(m: Maths, configured: Option<Vec3>, ref: Vec3): Vec3
  {
    var a := if configured.Some? then ProjectAxis(m, configured.value, ref) else None;
    var b := if a.None? then ProjectAxis(m, EX, ref) else a;
    var c := if b.None? then ProjectAxis(m, EY, ref) else b;
    var d := if c.None? then ProjectAxis(m, EZ, ref) else c;
    Or(d, EX)
  }

  function ReferenceAxes(m: Maths, configured: Option<Vec3>, ref: Vec3): (Vec3, Vec3)
  {
    var roll := RollAxis(m, configured, ref);
    (roll, Or(Normalize(m, Cross(ref, roll)), EY))
  }

  ghost predicate RightHanded(roll: Vec3, pitch: Vec3, down: Vec3)
  {
    && Unit(roll) && Unit(pitch) && Unit(down)
    && Dot(roll, pitch) == 0.0 && Dot(pitch, down) == 0.0 && Dot(down, roll) == 0.0
    && Cross(roll, pitch) == down && Cross(pitch, down) == roll && Cross(down, roll) == pitch
  }

  lemma RollAxisAcross(m: Maths, configured: Option<Vec3>, ref: Vec3)
    requires Lawful(m) && Unit(ref)
    ensures Unit(RollAxis(m, configured, ref)) && Dot(RollAxis(m, configured, ref), ref) == 0.0
  {
    if configured.Some? {
      ProjectedAxis(m, configured.value, ref);
    }
    ProjectedAxis(m, EX, ref);
    ProjectedAxis(m, EY, ref);
    XOrYProjects(m, ref);
    hide ProjectAxis, Lawful, Unit, Dot;
  }

  /** The roll axis points along the part of the configured axis across the reference, if there is one long enough, and
      without a configured axis, or with one along the reference, along that part of the x axis. */
  lemma RollAxisFollows(m: Maths, configured: Option<Vec3>, ref: Vec3)
    ensures configured.Some? && Norm(m, Rejection(configured.value, ref)) > TINY ==>
              Scale(RollAxis(m, configured, ref), Norm(m, Rejection(configured.value, ref))) == Rejection(configured.value, ref)
    ensures (configured.Some? ==> Norm(m, Rejection(configured.value, ref)) <= TINY) && Norm(m, Rejection(EX, ref)) > TINY ==>
              Scale(RollAxis(m, configured, ref), Norm(m, Rejection(EX, ref))) == Rejection(EX, ref)
  {
    hide Rejection, Norm, Scale, Normalize;
    if configured.Some? {
      NormalizedBack(m, Rejection(configured.value, ref));
    }
    NormalizedBack(m, Rejection(EX, ref));
  }

  lemma NormalizedBack(m: Maths, v: Vec3)
    ensures Normalize(m, v).Some? <==> Norm(m, v) > TINY
    ensures Normalize(m, v).Some? ==> Scale(Normalize(m, v).value, Norm(m, v)) == v
  {
    hide Norm;
  }

  /** The z projection and the fixed x and y axes behind it are never what is returned: one of the first
      three projections is. */
  lemma FallbacksUnreached(m: Maths, configured: Option<Vec3>, ref: Vec3)
    requires Lawful(m) && Unit(ref)
    ensures ProjectAxis(m, EX, ref).Some? || ProjectAxis(m, EY, ref).Some?
    ensures Normalize(m, Cross(ref, RollAxis(m, configured, ref))) == Some(Cross(ref, RollAxis(m, configured, ref)))
  {
    var roll := RollAxis(m, configured, ref);
    XOrYProjects(m, ref);
    RollAxisAcross(m, configured, ref);
    Lagrange(ref, roll, ref, roll);
    DotComm(roll, ref);
    UnitNormalized(m, Cross(ref, roll)) by {
      hide Dot, Cross, RollAxis, Lawful;
    }
    hide ProjectAxis, Lawful, Cross, Dot, RollAxis, Normalize;
  }

  /** For any unit reference the axes form a right-handed orthonormal frame with it. */
  lemma ReferenceFrame(m: Maths, configured: Option<Vec3>, ref: Vec3)
    requires Lawful(m) && Unit(ref)
    ensures var (roll, pitch) := ReferenceAxes(m, configured, ref); RightHanded(roll, pitch, ref)
  {
    var roll := RollAxis(m, configured, ref);
    var pitch := Cross(ref, roll);
    FallbacksUnreached(m, configured, ref);
    RollAxisAcross(m, configured, ref);
    CrossOrthogonal(ref, roll);
    Lagrange(ref, roll, ref, roll);
    DotComm(roll, ref);
    DotComm(ref, pitch);
    CrossBack(ref, roll);
    CrossBack(roll, ref);
    CrossTwice(roll, ref);
    assert Scale(roll, 1.0) == roll && Scale(ref, 1.0) == ref && Scale(ref, 0.0) == ORIGIN && Scale(roll, 0.0) == ORIGIN;
    assert Sub(roll, ORIGIN) == roll && Sub(ref, ORIGIN) == ref;
    hide Lawful, Dot, Cross, RollAxis, Normalize, Scale, Sub;
  }

  lemma CrossTwice(a: Vec3, b: Vec3)
    ensures Cross(a, Cross(b, a)) == Cross(Cross(a, b), a)
  {
  }
}
