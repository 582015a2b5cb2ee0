/** 3x3 matrices, quadratic forms and the order of symmetric matrices they induce. */
module Matrix3 {
  import opened Reals

  datatype Vec3 = Vec3(x0: real, x1: real, x2: real) {
    function At(i: int): real
      requires 0 <= i < 3
    {
      if i == 0 then x0 else if i == 1 then x1 else x2
    }
  }

  datatype Mat = Mat(r0: Vec3, r1: Vec3, r2: Vec3) {
    function Row(i: int): Vec3
      requires 0 <= i < 3
    {
      if i == 0 then r0 else if i == 1 then r1 else r2
    }

    function At(i: int, j: int): real
      requires 0 <= i < 3 && 0 <= j < 3
    {
      Row(i).At(j)
    }

    function Column(j: int): Vec3
      requires 0 <= j < 3
    {
      Vec3(r0.At(j), r1.At(j), r2.At(j))
    }
  }

  const ZERO := Mat(Vec3(0.0, 0.0, 0.0), Vec3(0.0, 0.0, 0.0), Vec3(0.0, 0.0, 0.0))

  function Dot(a: Vec3, b: Vec3): real {
    a.x0 * b.x0 + a.x1 * b.x1 + a.x2 * b.x2
  }

  function Plus(a: Vec3, b: Vec3): Vec3 {
    Vec3(a.x0 + b.x0, a.x1 + b.x1, a.x2 + b.x2)
  }

  function Times(k: real, a: Vec3): Vec3 {
    Vec3(k * a.x0, k * a.x1, k * a.x2)
  }

  function Transpose(m: Mat): Mat {
    Mat(m.Column(0), m.Column(1), m.Column(2))
  }

  function Apply(m: Mat, v: Vec3): Vec3 {
    Vec3(Dot(m.r0, v), Dot(m.r1, v), Dot(m.r2, v))
  }

  function ApplyRow(v: Vec3, m: Mat): Vec3 {
    Vec3(Dot(v, m.Column(0)), Dot(v, m.Column(1)), Dot(v, m.Column(2)))
  }

  function Mul(a: Mat, b: Mat): Mat {
    Mat(ApplyRow(a.r0, b), ApplyRow(a.r1, b), ApplyRow(a.r2, b))
  }

  function Sum(a: Mat, b: Mat): Mat {
    Mat(Plus(a.r0, b.r0), Plus(a.r1, b.r1), Plus(a.r2, b.r2))
  }

  function Scale(k: real, a: Mat): Mat {
    Mat(Times(k, a.r0), Times(k, a.r1), Times(k, a.r2))
  }

  function Outer(a: Vec3, b: Vec3): Mat {
    Mat(Times(a.x0, b), Times(a.x1, b), Times(a.x2, b))
  }

  /** A P A^T. */
  function Conjugate(a: Mat, p: Mat): Mat {
    Mul(Mul(a, p), Transpose(a))
  }

  predicate Symmetric(m: Mat) {
    m.r0.x1 == m.r1.x0 && m.r0.x2 == m.r2.x0 && m.r1.x2 == m.r2.x1
  }

  function Quad(m: Mat, y: Vec3): real {
    Dot(y, Apply(m, y))
  }

  ghost predicate PositiveSemidefinite(m: Mat) {
    forall y :: Quad(m, y) >= 0.0
  }

  /** The order of covariances: m is at most n in every direction. */
  ghost predicate AtMost(m: Mat, n: Mat) {
    forall y :: Quad(m, y) <= Quad(n, y)
  }

  // ---------- algebra ----------

  lemma DotAssociative(a: Vec3, m: Mat, b: Vec3)
    ensures Dot(ApplyRow(a, m), b) == Dot(a, Apply(m, b))
  {
  }

  lemma RowAssociative(a: Vec3, m: Mat, n: Mat)
    ensures ApplyRow(ApplyRow(a, m), n) == ApplyRow(a, Mul(m, n))
  {
  }

  lemma MulColumns(m: Mat, n: Mat)
    ensures Mul(m, n).Column(0) == Apply(m, n.Column(0))
    ensures Mul(m, n).Column(1) == Apply(m, n.Column(1))
    ensures Mul(m, n).Column(2) == Apply(m, n.Column(2))
  {
  }

  lemma MulAssociative(a: Mat, b: Mat, c: Mat)
    ensures Mul(Mul(a, b), c) == Mul(a, Mul(b, c))
  {
    RowAssociative(a.r0, b, c);
    RowAssociative(a.r1, b, c);
    RowAssociative(a.r2, b, c);
  }

  lemma DotCommutes(a: Vec3, b: Vec3)
    ensures Dot(a, b) == Dot(b, a)
  {
  }

  lemma ApplyIsRowOfTranspose(m: Mat, v: Vec3)
    ensures Apply(m, v) == ApplyRow(v, Transpose(m))
    ensures Apply(Transpose(m), v) == ApplyRow(v, m)
  {
  }

  lemma TransposeMul(a: Mat, b: Mat)
    ensures Transpose(Mul(a, b)) == Mul(Transpose(b), Transpose(a))
  {
  }

  lemma MulSumRight(a: Mat, b: Mat, c: Mat)
    ensures Mul(a, Sum(b, c)) == Sum(Mul(a, b), Mul(a, c))
  {
    RowSumRight(a.r0, b, c);
    RowSumRight(a.r1, b, c);
    RowSumRight(a.r2, b, c);
  }

  lemma RowSumRight(a: Vec3, b: Mat, c: Mat)
    ensures ApplyRow(a, Sum(b, c)) == Plus(ApplyRow(a, b), ApplyRow(a, c))
  {
  }

  lemma MulSumLeft(a: Mat, b: Mat, c: Mat)
    ensures Mul(Sum(a, b), c) == Sum(Mul(a, c), Mul(b, c))
  {
    RowSumLeft(a.r0, b.r0, c);
    RowSumLeft(a.r1, b.r1, c);
    RowSumLeft(a.r2, b.r2, c);
    hide ApplyRow;
    hide Plus;
  }

  lemma RowSumLeft(a: Vec3, b: Vec3, c: Mat)
    ensures ApplyRow(Plus(a, b), c) == Plus(ApplyRow(a, c), ApplyRow(b, c))
  {
  }

  lemma ConjugateSum(a: Mat, p: Mat, q: Mat)
    ensures Conjugate(a, Sum(p, q)) == Sum(Conjugate(a, p), Conjugate(a, q))
  {
    hide Mul;
    MulSumRight(a, p, q);
    MulSumLeft(Mul(a, p), Mul(a, q), Transpose(a));
  }

  lemma ConjugateCompose(a: Mat, b: Mat, p: Mat)
    ensures Conjugate(a, Conjugate(b, p)) == Conjugate(Mul(a, b), p)
  {
    hide Mul;
    hide Transpose;
    var bp := Mul(b, p);
    MulAssociative(a, bp, Transpose(b));
    MulAssociative(a, b, p);
    MulAssociative(Mul(a, bp), Transpose(b), Transpose(a));
    TransposeMul(a, b);
  }

  lemma DotScale(k: real, a: Vec3, b: Vec3)
    ensures Dot(Times(k, a), b) == k * Dot(a, b)
    ensures Dot(a, Times(k, b)) == k * Dot(a, b)
  {
  }

  lemma EntryScale(a: Vec3, k: real, m: Mat, j: int)
    requires 0 <= j < 3
    ensures Dot(a, Scale(k, m).Column(j)) == k * Dot(a, m.Column(j))
  {
  }

  lemma RowScale(a: Vec3, k: real, m: Mat)
    ensures ApplyRow(a, Scale(k, m)) == Times(k, ApplyRow(a, m))
    ensures ApplyRow(Times(k, a), m) == Times(k, ApplyRow(a, m))
  {
    hide Dot;
    hide Mat.Column;
    hide Scale;
    EntryScale(a, k, m, 0);
    EntryScale(a, k, m, 1);
    EntryScale(a, k, m, 2);
    DotScale(k, a, m.Column(0));
    DotScale(k, a, m.Column(1));
    DotScale(k, a, m.Column(2));
  }

  lemma ConjugateScale(a: Mat, k: real, p: Mat)
    ensures Conjugate(a, Scale(k, p)) == Scale(k, Conjugate(a, p))
  {
    hide ApplyRow;
    RowScale(a.r0, k, p);
    RowScale(a.r1, k, p);
    RowScale(a.r2, k, p);
    RowScale(ApplyRow(a.r0, p), k, Transpose(a));
    RowScale(ApplyRow(a.r1, p), k, Transpose(a));
    RowScale(ApplyRow(a.r2, p), k, Transpose(a));
  }

  // ---------- quadratic forms ----------

  lemma QuadSum(p: Mat, q: Mat, y: Vec3)
    ensures Quad(Sum(p, q), y) == Quad(p, y) + Quad(q, y)
  {
    DotPlus(p.r0, q.r0, y);
    DotPlus(p.r1, q.r1, y);
    DotPlus(p.r2, q.r2, y);
    DotPlus(Apply(p, y), Apply(q, y), y);
    DotCommutes(y, Apply(p, y));
    DotCommutes(y, Apply(q, y));
    DotCommutes(y, Apply(Sum(p, q), y));
    hide Dot;
  }

  lemma DotPlus(a: Vec3, b: Vec3, y: Vec3)
    ensures Dot(Plus(a, b), y) == Dot(a, y) + Dot(b, y)
  {
  }

  lemma QuadScale(k: real, p: Mat, y: Vec3)
    ensures Quad(Scale(k, p), y) == k * Quad(p, y)
  {
    hide *;
    ApplyScale(k, p, y);
    DotScale(k, y, Apply(p, y));
    QuadIs(p, y);
    QuadIs(Scale(k, p), y);
  }

  lemma QuadIs(p: Mat, y: Vec3)
    ensures Quad(p, y) == Dot(y, Apply(p, y))
  {
  }

  lemma ApplyScale(k: real, p: Mat, y: Vec3)
    ensures Apply(Scale(k, p), y) == Times(k, Apply(p, y))
  {
    hide Dot;
    DotScale(k, p.r0, y);
    DotScale(k, p.r1, y);
    DotScale(k, p.r2, y);
  }

  lemma QuadOuter(a: Vec3, y: Vec3)
    ensures Quad(Outer(a, a), y) == Squared(Dot(a, y))
  {
    var d := Dot(a, y);
    DotScale(a.x0, a, y);
    DotScale(a.x1, a, y);
    DotScale(a.x2, a, y);
    DotScale(d, y, a);
    DotCommutes(a, y);
    hide Dot;
    assert Apply(Outer(a, a), y) == Times(d, a);
  }

  /** The form of A P A^T at y is the form of P at A^T y. */
  lemma QuadConjugate(a: Mat, p: Mat, y: Vec3)
    ensures Quad(Conjugate(a, p), y) == Quad(p, ApplyRow(y, a))
  {
    hide Dot;
    hide Mul;
    hide Transpose;
    var z := ApplyRow(y, a);
    DotAssociative(y, Conjugate(a, p), y);
    hide Apply;
    hide ApplyRow;
    RowAssociative(y, Mul(a, p), Transpose(a));
    RowAssociative(y, a, p);
    DotAssociative(ApplyRow(z, p), Transpose(a), y);
    ApplyIsRowOfTranspose(a, y);
    DotAssociative(z, p, z);
  }

  lemma ConjugateSymmetric(a: Mat, p: Mat)
    requires Symmetric(p)
    ensures Symmetric(Conjugate(a, p))
  {
    hide Mul;
    assert Transpose(p) == p;
    var m := Conjugate(a, p);
    TransposeMul(Mul(a, p), Transpose(a));
    TransposeMul(a, p);
    MulAssociative(a, p, Transpose(a));
    assert Transpose(Transpose(a)) == a;
    assert Transpose(m) == m;
  }

  lemma SumSymmetric(p: Mat, q: Mat)
    requires Symmetric(p) && Symmetric(q)
    ensures Symmetric(Sum(p, q))
  {
  }

  lemma ConjugateSemidefinite(a: Mat, p: Mat)
    requires PositiveSemidefinite(p)
    ensures PositiveSemidefinite(Conjugate(a, p))
  {
    hide Quad;
    forall y: Vec3
      ensures Quad(Conjugate(a, p), y) >= 0.0
    {
      QuadConjugate(a, p, y);
    }
  }

  lemma SumSemidefinite(p: Mat, q: Mat)
    requires PositiveSemidefinite(p) && PositiveSemidefinite(q)
    ensures PositiveSemidefinite(Sum(p, q))
  {
    hide Quad;
    forall y: Vec3
      ensures Quad(Sum(p, q), y) >= 0.0
    {
      QuadSum(p, q, y);
    }
  }

  lemma ScaleSemidefinite(k: real, p: Mat)
    requires k >= 0.0 && PositiveSemidefinite(p)
    ensures PositiveSemidefinite(Scale(k, p))
  {
    hide Quad;
    forall y: Vec3
      ensures Quad(Scale(k, p), y) >= 0.0
    {
      QuadScale(k, p, y);
      MulNonNegative(k, Quad(p, y));
    }
  }

  lemma OuterSemidefinite(a: Vec3)
    ensures PositiveSemidefinite(Outer(a, a))
  {
    hide Quad;
    hide Dot;
    forall y: Vec3
      ensures Quad(Outer(a, a), y) >= 0.0
    {
      QuadOuter(a, y);
    }
  }

  predicate DiagonalNonNegative(m: Mat) {
    m.r0.x0 >= 0.0 && m.r1.x1 >= 0.0 && m.r2.x2 >= 0.0
  }

  lemma SemidefiniteDiagonal(m: Mat)
    requires PositiveSemidefinite(m)
    ensures DiagonalNonNegative(m)
  {
    assert Quad(m, Vec3(1.0, 0.0, 0.0)) == m.r0.x0;
    assert Quad(m, Vec3(0.0, 1.0, 0.0)) == m.r1.x1;
    assert Quad(m, Vec3(0.0, 0.0, 1.0)) == m.r2.x2;
  }

  lemma ConjugateMonotone(a: Mat, p: Mat, q: Mat)
    requires AtMost(p, q)
    ensures AtMost(Conjugate(a, p), Conjugate(a, q))
  {
    hide Quad;
    forall y: Vec3
      ensures Quad(Conjugate(a, p), y) <= Quad(Conjugate(a, q), y)
    {
      QuadConjugate(a, p, y);
      QuadConjugate(a, q, y);
    }
  }

  lemma SumMonotone(p: Mat, q: Mat, n: Mat)
    requires AtMost(p, q)
    ensures AtMost(Sum(p, n), Sum(q, n))
  {
    hide Quad;
    forall y: Vec3
      ensures Quad(Sum(p, n), y) <= Quad(Sum(q, n), y)
    {
      QuadSum(p, n, y);
      QuadSum(q, n, y);
    }
  }
}
