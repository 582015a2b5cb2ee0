/**
 The vertical observer: state, covariance and a health flag that latches off, updated in
 place. Covariance algebra is in `Kalman`; here every routine is tied to it.
 */
module WorldZModule {
  import opened Reals
  import opened Matrix3
  import opened Kalman

  const MAX_STEP := 0.1

  /** The value of a 3x3 array. */
  function Value(a: array2<real>): Mat
    requires a.Length0 == 3 && a.Length1 == 3
    reads a
  {
    Mat(Vec3(a[0, 0], a[0, 1], a[0, 2]), Vec3(a[1, 0], a[1, 1], a[1, 2]), Vec3(a[2, 0], a[2, 1], a[2, 2]))
  }

  function VectorValue(x: array<real>): Vec3
    requires x.Length == 3
    reads x
  {
    Vec3(x[0], x[1], x[2])
  }

  /** The first n terms of an entry of a product. */
  function PartialEntry(row: Vec3, column: Vec3, n: nat): real
    requires n <= 3
  {
    if n == 0 then 0.0 else PartialEntry(row, column, n - 1) + row.At(n - 1) * column.At(n - 1)
  }

  lemma FullEntry(row: Vec3, column: Vec3)
    ensures PartialEntry(row, column, 3) == Dot(row, column)
  {
    assert PartialEntry(row, column, 1) == row.x0 * column.x0;
    assert PartialEntry(row, column, 2) == row.x0 * column.x0 + row.x1 * column.x1;
  }

  method NewMatrix(m: Mat) returns (a: array2<real>)
    ensures fresh(a) && a.Length0 == 3 && a.Length1 == 3 && Value(a) == m
  {
    a := new real[3, 3];
    a[0, 0], a[0, 1], a[0, 2] := m.r0.x0, m.r0.x1, m.r0.x2;
    a[1, 0], a[1, 1], a[1, 2] := m.r1.x0, m.r1.x1, m.r1.x2;
    a[2, 0], a[2, 1], a[2, 2] := m.r2.x0, m.r2.x1, m.r2.x2;
  }

  ghost predicate EntriesUpTo(c: array2<real>, a: Mat, b: Mat, i: int, j: int)
    requires c.Length0 == 3 && c.Length1 == 3
    reads c
  {
    forall u, v :: 0 <= u < 3 && 0 <= v < 3 && (u < i || (u == i && v < j)) ==> c[u, v] == Dot(a.Row(u), b.Column(v))
  }

  lemma AllEntries(c: array2<real>, a: Mat, b: Mat)
    requires c.Length0 == 3 && c.Length1 == 3 && EntriesUpTo(c, a, b, 3, 0)
    ensures Value(c) == Mul(a, b)
  {
  }

  /** The triple loop of a product; `transposed` reads the second factor by rows. */
  method MatrixProduct(a: array2<real>, b: array2<real>, transposed: bool) returns (c: array2<real>)
    requires a.Length0 == 3 && a.Length1 == 3 && b.Length0 == 3 && b.Length1 == 3
    ensures fresh(c) && c.Length0 == 3 && c.Length1 == 3
    ensures Value(c) == Mul(Value(a), if transposed then Transpose(Value(b)) else Value(b))
  {
    hide Dot;
    hide Mul;
    ghost var m, n := Value(a), if transposed then Transpose(Value(b)) else Value(b);
    c := NewMatrix(ZERO);
    for i := 0 to 3
      invariant EntriesUpTo(c, m, n, i, 0)
      invariant forall u, v :: i <= u < 3 && 0 <= v < 3 ==> c[u, v] == 0.0
    {
      for j := 0 to 3
        invariant EntriesUpTo(c, m, n, i, j)
        invariant forall u, v :: 0 <= u < 3 && 0 <= v < 3 && (u > i || (u == i && v >= j)) ==> c[u, v] == 0.0
      {
        for k := 0 to 3
          invariant EntriesUpTo(c, m, n, i, j)
          invariant forall u, v :: 0 <= u < 3 && 0 <= v < 3 && (u > i || (u == i && v > j)) ==> c[u, v] == 0.0
          invariant c[i, j] == PartialEntry(m.Row(i), n.Column(j), k)
        {
          var factor := if transposed then b[j, k] else b[k, j];
          assert factor == n.Column(j).At(k);
          c[i, j] := c[i, j] + a[i, k] * factor;
        }
        FullEntry(m.Row(i), n.Column(j));
      }
    }
    AllEntries(c, m, n);
  }

  class WorldZ {
    const x: array<real>
    const p: array2<real>
    var qa: real
    var qb: real
    var healthy: bool

    ghost predicate Shaped() {
      x.Length == 3 && p.Length0 == 3 && p.Length1 == 3
    }

    ghost function Mean(): Vec3
      requires Shaped()
      reads x
    {
      VectorValue(x)
    }

    ghost function Cov(): Mat
      requires Shaped()
      reads p
    {
      Value(p)
    }

    /** What the observer promises while it is healthy. */
    ghost predicate Sound()
      reads this, x, p
    {
      Shaped() && (healthy ==> Covariance(Cov()) && qa >= 0.0 && qb >= 0.0)
    }

    constructor ()
      ensures Shaped() && fresh(x) && fresh(p) && !healthy
    {
      x := new real[3](_ => 0.0);
      p := new real[3, 3]((_, _) => 0.0);
      qa, qb, healthy := 0.0, 0.0, false;
    }

    /** No negative variance on the diagonal (all entries are finite here). */
    method FiniteState() returns (ok: bool)
      requires Shaped()
      ensures ok == DiagonalNonNegative(Cov())
    {
      for i := 0 to 3
        invariant forall k :: 0 <= k < i ==> p[k, k] >= 0.0
      {
        if p[i, i] < 0.0 {
          return false;
        }
      }
      return true;
    }

    method Init(z: Number, v: Number, bias: Number, sz: Number, sv: Number, sb: Number, a: Number, b: Number)
      returns (ok: bool)
      requires Shaped()
      modifies this, x, p
      ensures ok == healthy
      ensures healthy <==>
                (z.Finite? && v.Finite? && bias.Finite? && sz.Finite? && sv.Finite? && sb.Finite? && a.Finite?
                    && b.Finite?
                            && sz.value >= 0.0 && sv.value >= 0.0 && sb.value >= 0.0 && a.value >= 0.0
                               && b.value >= 0.0)
      ensures healthy ==> Mean() == Vec3(z.value, v.value, bias.value) && qa == a.value && qb == b.value
      ensures healthy ==> Cov() == Mat(Vec3(Squared(sz.value), 0.0, 0.0), Vec3(0.0, Squared(sv.value), 0.0),
                                       Vec3(0.0, 0.0, Squared(sb.value)))
      ensures Sound()
    {
      for i := 0 to 3
        modifies p
        invariant forall u, w :: 0 <= u < i && 0 <= w < 3 ==> p[u, w] == 0.0
      {
        for j := 0 to 3
          modifies p
          invariant forall u, w :: 0 <= u < 3 && 0 <= w < 3 && (u < i || (u == i && w < j)) ==> p[u, w] == 0.0
        {
          p[i, j] := 0.0;
        }
      }
      x[0], x[1], x[2] := z.Or0(), v.Or0(), bias.Or0();
      p[0, 0], p[1, 1], p[2, 2] := Squared(sz.Or0()), Squared(sv.Or0()), Squared(sb.Or0());
      qa, qb := a.Or0(), b.Or0();
      var diagonal := FiniteState();
      healthy := diagonal && z.Finite? && v.Finite? && bias.Finite? && sz.Finite? && sv.Finite? && sb.Finite?
                 && a.Finite? && b.Finite? && sz.value >= 0.0 && sv.value >= 0.0 && sb.value >= 0.0 && a.value >= 0.0
                    && b.value >= 0.0;
      DiagonalCovariance(Squared(sz.Or0()), Squared(sv.Or0()), Squared(sb.Or0()));
      return healthy;
    }

    /** memcpy of a freshly computed covariance. */
    method CopyCovariance(m: array2<real>)
      requires Shaped() && m.Length0 == 3 && m.Length1 == 3 && m != p
      modifies p
      ensures Cov() == Value(m)
    {
      for i := 0 to 3
        modifies p
        invariant forall u, w :: 0 <= u < i && 0 <= w < 3 ==> p[u, w] == m[u, w]
      {
        for j := 0 to 3
          modifies p
          invariant forall u, w :: 0 <= u < 3 && 0 <= w < 3 && (u < i || (u == i && w < j)) ==> p[u, w] == m[u, w]
        {
          p[i, j] := m[i, j];
        }
      }
    }

    method Predict(a: Number, t: Number) returns (ok: bool)
      requires Shaped()
      modifies this, x, p
      ensures ok == healthy
      ensures qa == old(qa) && qb == old(qb)
      ensures !old(healthy) || a.NotFinite? || t.NotFinite? || t.value <= 0.0 || t.value > MAX_STEP ==>
                !healthy && Mean() == old(Mean()) && Cov() == old(Cov())
      ensures old(healthy) && a.Finite? && t.Finite? && 0.0 < t.value <= MAX_STEP ==>
                Mean() == PredictedMean(old(Mean()), a.value, t.value)
                && Cov() == PredictedCovariance(old(Cov()), qa, qb, t.value)
                && healthy == DiagonalNonNegative(Cov())
      ensures old(Sound()) ==> Sound()
      ensures old(Sound()) && old(healthy) && a.Finite? && t.Finite? && 0.0 < t.value <= MAX_STEP ==> healthy
    {
      if !healthy {
        return false;
      }
      if a.NotFinite? || t.NotFinite? || t.value <= 0.0 || t.value > MAX_STEP {
        healthy := false;
        return false;
      }
      hide PredictedCovariance;
      hide Covariance;
      hide MovedHeight;
      hide MovedSpeed;
      ghost var before := Cov();
      PropagateCovariance(t.value);
      x[0] := MovedHeight(x[0], x[1], a.value - x[2], t.value);
      x[1] := MovedSpeed(x[1], a.value - x[2], t.value);
      healthy := FiniteState();
      if Covariance(before) && qa >= 0.0 && qb >= 0.0 {
        PredictionKeepsCovariance(before, qa, qb, t.value);
        SemidefiniteDiagonal(Cov());
      }
      return healthy;
    }

    /** F P F^T + Q, computed with the two product loops and copied back. */
    method PropagateCovariance(t: real)
      requires Shaped()
      modifies p
      ensures Cov() == PredictedCovariance(old(Cov()), qa, qb, t)
    {
      hide Kalman.Transition;
      hide Kalman.Noise;
      hide Mul;
      var f := NewMatrix(Transition(t));
      var noise := NewMatrix(Noise(qa, qb, t));
      var fp := MatrixProduct(f, p, false);
      var m := MatrixProduct(fp, f, true);
      AddInto(m, noise);
      CopyCovariance(m);
    }

    /** A P A^T + k r k^T, computed with the two product loops and copied back. */
    method JosephUpdate(k: Vec3, r: real)
      requires Shaped()
      modifies p
      ensures Cov() == JosephCovariance(old(Cov()), k, r)
    {
      hide Kalman.Residual;
      hide Mul;
      hide Outer;
      hide Scale;
      var a := NewMatrix(Residual(k));
      var gain := NewMatrix(Scale(r, Outer(k, k)));
      var ap := MatrixProduct(a, p, false);
      var m := MatrixProduct(ap, a, true);
      AddInto(m, gain);
      CopyCovariance(m);
    }

    /** The Joseph update shared by both corrections. */
    method CorrectGain(y: Number, r: Number, k: Vec3) returns (ok: bool)
      requires Shaped()
      modifies this, x, p
      ensures ok == healthy
      ensures qa == old(qa) && qb == old(qb)
      ensures !old(healthy) || y.NotFinite? || r.NotFinite? || r.value <= 0.0 ==>
                !healthy && Mean() == old(Mean()) && Cov() == old(Cov())
      ensures old(healthy) && y.Finite? && r.Finite? && r.value > 0.0 ==>
                Mean() == CorrectedMean(old(Mean()), y.value, k)
                && Cov() == JosephCovariance(old(Cov()), k, r.value)
                && healthy == DiagonalNonNegative(Cov())
      ensures old(Sound()) ==> Sound()
      ensures old(Sound()) && old(healthy) && y.Finite? && r.Finite? && r.value > 0.0 ==> healthy
    {
      if !healthy {
        return false;
      }
      if y.NotFinite? || r.NotFinite? || r.value <= 0.0 {
        healthy := false;
        return false;
      }
      hide Nudged;
      hide JosephCovariance;
      hide Covariance;
      ghost var before := Cov();
      var innovation := y.value - x[0];
      JosephUpdate(k, r.value);
      for i := 0 to 3
        modifies x
        invariant forall w :: 0 <= w < 3 ==> x[w] == if w < i then Nudged(old(x[w]), k.At(w), innovation) else old(x[w])
      {
        x[i] := x[i] + k.At(i) * innovation;
        assert x[i] == Nudged(old(x[i]), k.At(i), innovation);
      }
      healthy := FiniteState();
      if Covariance(before) {
        JosephKeepsCovariance(before, k, r.value);
        SemidefiniteDiagonal(Cov());
      }
      return healthy;
    }

    /** The barometer correction with the optimal gain. */
    method Baro(y: Number, r: Number) returns (ok: bool)
      requires Sound()
      modifies this, x, p
      ensures ok == healthy && Sound()
      ensures qa == old(qa) && qb == old(qb)
      ensures !old(healthy) || y.NotFinite? || r.NotFinite? || r.value <= 0.0 ==>
                !healthy && Mean() == old(Mean()) && Cov() == old(Cov())
      ensures old(healthy) && y.Finite? && r.Finite? && r.value > 0.0 ==>
                healthy && old(Cov()).r0.x0 + r.value > 0.0
                && Mean() == CorrectedMean(old(Mean()), y.value, OptimalGain(old(Cov()), r.value))
                && Cov() == JosephCovariance(old(Cov()), OptimalGain(old(Cov()), r.value), r.value)
                && AtMost(Cov(), old(Cov()))
                && Product(old(Cov()).r0.x0 + r.value, y.value - Mean().x0) ==
                   Product(r.value, y.value - old(Mean()).x0)
    {
      if !healthy {
        return false;
      }
      if r.NotFinite? || r.value <= 0.0 {
        healthy := false;
        return false;
      }
      ghost var before := Cov();
      SemidefiniteDiagonal(before);
      hide PositiveSemidefinite;
      hide AtMost;
      hide JosephCovariance;
      var s := p[0, 0] + r.value;
      var k := Vec3(p[0, 0] / s, p[1, 0] / s, p[2, 0] / s);
      OptimalIsLeast(before, k, r.value);
      assert k == OptimalGain(before, r.value);
      BaroShrinks(Mean(), y.Or0(), before, r.value);
      hide OptimalGain;
      hide CorrectedMean;
      hide Product;
      ok := CorrectGain(y, r, k);
    }

    /** The fixed-gain complementary correction. */
    method SlowBaro(y: Number, r: Number, dt: Number, omega: Number) returns (ok: bool)
      requires Shaped()
      modifies this, x, p
      ensures ok == healthy
      ensures qa == old(qa) && qb == old(qb)
      ensures var valid := dt.Finite? && 0.0 < dt.value <= MAX_STEP && omega.Finite? && omega.value > 0.0
                           && omega.value * dt.value < 0.1 && y.Finite? && r.Finite? && r.value > 0.0;
              && (!old(healthy) || !valid ==> !healthy && Mean() == old(Mean()) && Cov() == old(Cov()))
              && (old(healthy) && valid ==>
                    Mean() == CorrectedMean(old(Mean()), y.value, SlowGain(dt.value, omega.value))
                    && Cov() == JosephCovariance(old(Cov()), SlowGain(dt.value, omega.value), r.value)
                    && healthy == DiagonalNonNegative(Cov()))
              && (old(Sound()) && old(healthy) && valid ==> healthy)
      ensures old(Sound()) ==> Sound()
    {
      if !healthy {
        return false;
      }
      if dt.NotFinite? || dt.value <= 0.0 || dt.value > MAX_STEP || omega.NotFinite? || omega.value <= 0.0
         || omega.value * dt.value >= 0.1 {
        healthy := false;
        return false;
      }
      hide JosephCovariance;
      hide CorrectedMean;
      hide PositiveSemidefinite;
      hide SlowGain;
      ok := CorrectGain(y, r, SlowGain(dt.value, omega.value));
    }
  }

  /** Add n to m, entry by entry. */
  method AddInto(m: array2<real>, n: array2<real>)
    requires m.Length0 == 3 && m.Length1 == 3 && n.Length0 == 3 && n.Length1 == 3 && m != n
    modifies m
    ensures Value(m) == Sum(old(Value(m)), Value(n))
  {
    for i := 0 to 3
      invariant forall u, w :: 0 <= u < 3 && 0 <= w < 3 ==> m[u, w] == old(m[u, w]) + (if u < i then n[u, w] else 0.0)
    {
      for j := 0 to 3
        invariant forall u, w :: 0 <= u < 3 && 0 <= w < 3 ==>
          m[u, w] == old(m[u, w]) + (if u < i || (u == i && w < j) then n[u, w] else 0.0)
      {
        m[i, j] := m[i, j] + n[i, j];
      }
    }
  }

  lemma DiagonalCovariance(a: real, b: real, c: real)
    requires a >= 0.0 && b >= 0.0 && c >= 0.0
    ensures Covariance(Mat(Vec3(a, 0.0, 0.0), Vec3(0.0, b, 0.0), Vec3(0.0, 0.0, c)))
  {
    var m := Mat(Vec3(a, 0.0, 0.0), Vec3(0.0, b, 0.0), Vec3(0.0, 0.0, c));
    forall y: Vec3
      ensures Quad(m, y) >= 0.0
    {
      MulNonNegative(a, Squared(y.x0));
      MulNonNegative(b, Squared(y.x1));
      MulNonNegative(c, Squared(y.x2));
      assert Quad(m, y) == a * Squared(y.x0) + b * Squared(y.x1) + c * Squared(y.x2);
    }
  }
}
