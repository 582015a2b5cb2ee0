/** The vertical acceleration seen by a strapped-down accelerometer at a given attitude. */
module WorldProject {
  import opened Options
  import opened Reals

  const GRAVITY := 9.81
  const NORM_TOLERANCE := 0.02

  datatype Quaternion = Quaternion(w: real, x: real, y: real, z: real)
  datatype Vec = Vec(x: real, y: real, z: real)

  function Norm(q: Quaternion): real {
    q.w * q.w + q.x * q.x + q.y * q.y + q.z * q.z
  }

  function Dot(a: Vec, b: Vec): real {
    a.x * b.x + a.y * b.y + a.z * b.z
  }

  /** World up in body axes, before dividing by the norm. */
  function UpScaled(q: Quaternion): Vec {
    Vec(2.0 * (q.x * q.z - q.w * q.y), 2.0 * (q.w * q.x + q.y * q.z), q.w * q.w - q.x * q.x - q.y * q.y + q.z * q.z)
  }

  function Up(q: Quaternion): Vec
    requires Norm(q) > 0.0
  {
    Vec(UpScaled(q).x / Norm(q), UpScaled(q).y / Norm(q), UpScaled(q).z / Norm(q))
  }

  /** Refused for numbers that are not finite or a quaternion too far from unit length. */
  function Project(q: seq<Number>, a: seq<Number>): Option<real>
    requires |q| == 4 && |a| == 3
  {
    if (exists i :: 0 <= i < 4 && q[i].NotFinite?) || (exists i :: 0 <= i < 3 && a[i].NotFinite?) then None
    else
      var p := Quaternion(q[0].Or0(), q[1].Or0(), q[2].Or0(), q[3].Or0());
      if Abs(Norm(p) - 1.0) > NORM_TOLERANCE then None
      else Some(GRAVITY * (Dot(Up(p), Vec(a[0].Or0(), a[1].Or0(), a[2].Or0())) - 1.0))
  }

  // The terms of that row.

  function CrossX(q: Quaternion): real { q.x * q.z - q.w * q.y }
  function CrossY(q: Quaternion): real { q.w * q.x + q.y * q.z }
  function Head(q: Quaternion): real { q.w * q.w + q.z * q.z }
  function Side(q: Quaternion): real { q.x * q.x + q.y * q.y }

  lemma UpScaledIs(q: Quaternion)
    ensures UpScaled(q) == Vec(2.0 * CrossX(q), 2.0 * CrossY(q), Head(q) - Side(q)) && Norm(q) == Head(q) + Side(q)
  {
  }

  lemma UpScaledLength(q: Quaternion)
    ensures Dot(UpScaled(q), UpScaled(q)) == Squared(Norm(q))
  {
    hide *;
    UpScaledIs(q);
    DotIsSquares(UpScaled(q));
    CrossTerms(q);
    DoubledSquare(CrossX(q));
    DoubledSquare(CrossY(q));
    SumAndDifference(Head(q), Side(q));
  }

  lemma CrossTerms(q: Quaternion)
    ensures Squared(CrossX(q)) + Squared(CrossY(q)) == Product(Head(q), Side(q))
  {
  }

  lemma DoubledSquare(u: real)
    ensures Squared(2.0 * u) == 4.0 * Squared(u)
  {
  }

  lemma SumAndDifference(a: real, b: real)
    ensures Squared(a + b) == Squared(a - b) + 4.0 * Product(a, b)
  {
  }

  lemma DotIsSquares(u: Vec)
    ensures Dot(u, u) == Squared(u.x) + Squared(u.y) + Squared(u.z)
  {
  }

  function Times(g: Vec, n: real): Vec {
    Vec(g.x * n, g.y * n, g.z * n)
  }

  lemma Scaling(g: Vec, n: real)
    ensures Dot(Times(g, n), Times(g, n)) == Product(Dot(g, g), Squared(n))
  {
  }

  lemma UnitFactor(s: real, m: real)
    requires m > 0.0 && Product(s, m) == m
    ensures s == 1.0
  {
  }

  lemma UpTimesNorm(q: Quaternion)
    requires Norm(q) > 0.0
    ensures Times(Up(q), Norm(q)) == UpScaled(q)
  {
    hide Norm;
    hide UpScaled;
  }

  /** Whatever the norm error, the row that weighs the accelerometer is a unit vector. */
  lemma UpIsUnit(q: Quaternion)
    requires Norm(q) > 0.0
    ensures Dot(Up(q), Up(q)) == 1.0
  {
    hide *;
    UpScaledLength(q);
    Scaling(Up(q), Norm(q));
    UpTimesNorm(q);
    SquarePositive(Norm(q));
    UnitFactor(Dot(Up(q), Up(q)), Squared(Norm(q)));
  }

  lemma SquarePositive(n: real)
    requires n > 0.0
    ensures Squared(n) > 0.0
  {
    var half := n / 2.0;
    MulPositive(n, half);
    assert Squared(n) == 2.0 * (n * half);
  }

  lemma Lagrange(a: Vec, b: Vec)
    ensures Dot(a, a) * Dot(b, b) == Dot(a, b) * Dot(a, b) + Squared(a.x * b.y - a.y * b.x)
                                     + Squared(a.y * b.z - a.z * b.y) + Squared(a.z * b.x - a.x * b.z)
  {
  }

  /** A vehicle at rest in any attitude projects to zero, and no reading projects beyond its own length. */
  lemma RestIsZero(q: seq<Number>, a: seq<Number>)
    requires |q| == 4 && |a| == 3 && Project(q, a).Some?
    ensures var p := Quaternion(q[0].Or0(), q[1].Or0(), q[2].Or0(), q[3].Or0());
            var f := Vec(a[0].Or0(), a[1].Or0(), a[2].Or0());
            && Norm(p) > 0.0
            && (f == Up(p) ==> Project(q, a).value == 0.0)
            && Squared(Project(q, a).value / GRAVITY + 1.0) <= Dot(f, f)
  {
    var p := Quaternion(q[0].Or0(), q[1].Or0(), q[2].Or0(), q[3].Or0());
    var f := Vec(a[0].Or0(), a[1].Or0(), a[2].Or0());
    var g := Up(p);
    UpIsUnit(p);
    Lagrange(g, f);
    MulEqual(Dot(f, f), Dot(g, g), 1.0);
    var d := Dot(g, f);
    assert Project(q, a).value / GRAVITY + 1.0 == d;
    assert Squared(d) == d * d;
    hide Dot;
    hide Squared;
  }

  // ---------- the rotation behind it ----------

  /** The product of quaternions. */
  function Mul(p: Quaternion, q: Quaternion): Quaternion {
    Quaternion(p.w * q.w - p.x * q.x - p.y * q.y - p.z * q.z, p.w * q.x + p.x * q.w + p.y * q.z - p.z * q.y,
               p.w * q.y - p.x * q.z + p.y * q.w + p.z * q.x, p.w * q.z + p.x * q.y - p.y * q.x + p.z * q.w)
  }

  function Conjugate(q: Quaternion): Quaternion {
    Quaternion(q.w, -q.x, -q.y, -q.z)
  }

  /** A body vector in world axes, times the norm of the quaternion. */
  function Rotated(q: Quaternion, a: Vec): Quaternion {
    Mul(Mul(q, Quaternion(0.0, a.x, a.y, a.z)), Conjugate(q))
  }

  lemma RotatedIdentity(w: real, x: real, y: real, z: real, a: real, b: real, c: real)
    ensures (-x * a - y * b - z * c) * -z + (w * a + y * c - z * b) * -y - (w * b - x * c + z * a) * -x
            + (w * c + x * b - y * a) * w
            == 2.0 * (x * z - w * y) * a + 2.0 * (w * x + y * z) * b + (w * w - x * x - y * y + z * z) * c
  {
  }

  lemma RotatedHeight(q: Quaternion, a: Vec)
    ensures Rotated(q, a).z ==
              (-q.x * a.x - q.y * a.y - q.z * a.z) * -q.z + (q.w * a.x + q.y * a.z - q.z * a.y) * -q.y
              - (q.w * a.y - q.x * a.z + q.z * a.x) * -q.x + (q.w * a.z + q.x * a.y - q.y * a.x) * q.w
  {
  }

  lemma DotUpScaled(q: Quaternion, a: Vec)
    ensures Dot(UpScaled(q), a) == 2.0 * (q.x * q.z - q.w * q.y) * a.x + 2.0 * (q.w * q.x + q.y * q.z) * a.y
                                   + (q.w * q.w - q.x * q.x - q.y * q.y + q.z * q.z) * a.z
  {
  }

  /** The row is the third one of the rotation: it gives the world vertical component of every body vector. */
  lemma UpIsRotation(q: Quaternion, a: Vec)
    ensures Dot(UpScaled(q), a) == Rotated(q, a).z
  {
    hide *;
    DotUpScaled(q, a);
    RotatedHeight(q, a);
    RotatedIdentity(q.w, q.x, q.y, q.z, a.x, a.y, a.z);
  }

  /** However it is turned about the vertical, a level vehicle has world up along its own third axis. */
  lemma LevelIsUp(q: Quaternion)
    requires q.x == q.y == 0.0 && (q.w != 0.0 || q.z != 0.0)
    ensures Norm(q) > 0.0 && Up(q) == Vec(0.0, 0.0, 1.0)
  {
    hide *;
    var n := Squared(q.w) + Squared(q.z);
    LevelScaled(q);
    SomePositive(q.w, q.z);
    UpQuotient(q);
    assert 0.0 / n == 0.0 && n / n == 1.0;
  }

  lemma LevelScaled(q: Quaternion)
    requires q.x == q.y == 0.0
    ensures Norm(q) == Squared(q.w) + Squared(q.z) && UpScaled(q) == Vec(0.0, 0.0, Squared(q.w) + Squared(q.z))
  {
  }

  lemma UpQuotient(q: Quaternion)
    requires Norm(q) > 0.0
    ensures Up(q) == Vec(UpScaled(q).x / Norm(q), UpScaled(q).y / Norm(q), UpScaled(q).z / Norm(q))
  {
  }

  lemma SomePositive(w: real, z: real)
    requires w != 0.0 || z != 0.0
    ensures Squared(w) + Squared(z) > 0.0
  {
    SignLost(w);
    SignLost(z);
    if w != 0.0 {
      SquarePositive(Abs(w));
    } else {
      SquarePositive(Abs(z));
    }
    hide Squared;
  }

  lemma SignLost(x: real)
    ensures Squared(Abs(x)) == Squared(x)
  {
  }

  lemma DotUp(q: Quaternion, a: Vec)
    requires Norm(q) > 0.0
    ensures Dot(Up(q), a) * Norm(q) == Dot(UpScaled(q), a)
  {
    UpTimesNorm(q);
    DotTimes(Up(q), Norm(q), a);
    hide *;
  }

  lemma DotTimes(g: Vec, n: real, a: Vec)
    ensures Dot(Times(g, n), a) == Dot(g, a) * n
  {
  }

  /**
   Projection succeeds exactly on finite numbers with a squared quaternion length within 0.02 of one, and then gives
   the world vertical component of the rotated reading, less the reading at rest, in m/s^2.
   */
  lemma ProjectIsRotation(q: seq<Number>, a: seq<Number>)
    requires |q| == 4 && |a| == 3
    ensures var p := Quaternion(q[0].Or0(), q[1].Or0(), q[2].Or0(), q[3].Or0());
            var f := Vec(a[0].Or0(), a[1].Or0(), a[2].Or0());
            && (Project(q, a).Some? <==>
                  && (forall i :: 0 <= i < 4 ==> q[i].Finite?) && (forall i :: 0 <= i < 3 ==> a[i].Finite?)
                  && 0.98 <= Norm(p) <= 1.02)
            && (Project(q, a).Some? ==> (Project(q, a).value / 9.81 + 1.0) * Norm(p) == Rotated(p, f).z)
  {
    var p := Quaternion(q[0].Or0(), q[1].Or0(), q[2].Or0(), q[3].Or0());
    var f := Vec(a[0].Or0(), a[1].Or0(), a[2].Or0());
    hide Norm;
    hide Up;
    hide Dot;
    hide Rotated;
    if Project(q, a).Some? {
      DotUp(p, f);
      UpIsRotation(p, f);
      var d := Dot(Up(p), f);
      assert Project(q, a).value == GRAVITY * (d - 1.0);
      assert Project(q, a).value / 9.81 + 1.0 == d;
    }
  }
}
