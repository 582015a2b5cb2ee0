/**
 The covariance algebra of the vertical filter: prediction over a step, Joseph updates
 with any gain, and what holds of whole schedules of them.
 */
module Kalman {
  import opened Reals
  import opened Matrix3

  // ---------- prediction ----------

  function Transition(t: real): Mat {
    Mat(Vec3(1.0, t, -(t * t) / 2.0), Vec3(0.0, 1.0, -t), Vec3(0.0, 0.0, 1.0))
  }

  /** Noise of a white acceleration over a step. */
  function AccelerationNoise(t: real): Mat {
    Mat(Vec3(t * t * t / 3.0, t * t / 2.0, 0.0), Vec3(t * t / 2.0, t, 0.0), Vec3(0.0, 0.0, 0.0))
  }

  /** Noise of a drifting acceleration bias over a step. */
  function BiasNoise(t: real): Mat {
    Mat(Vec3(t * t * t * t * t / 20.0, t * t * t * t / 8.0, -(t * t * t) / 6.0),
        Vec3(t * t * t * t / 8.0, t * t * t / 3.0, -(t * t) / 2.0),
        Vec3(-(t * t * t) / 6.0, -(t * t) / 2.0, t))
  }

  function Noise(qa: real, qb: real, t: real): Mat {
    Sum(Scale(qa, AccelerationNoise(t)), Scale(qb, BiasNoise(t)))
  }

  function PredictedCovariance(p: Mat, qa: real, qb: real, t: real): Mat {
    Sum(Conjugate(Transition(t), p), Noise(qa, qb, t))
  }

  function MovedHeight(z: real, v: real, g: real, t: real): real {
    z + (v * t + g * (t * t) / 2.0)
  }

  function MovedSpeed(v: real, g: real, t: real): real {
    v + g * t
  }

  /** Height and speed move with the bias-corrected acceleration; the bias stays. */
  function PredictedMean(x: Vec3, a: real, t: real): Vec3 {
    Vec3(MovedHeight(x.x0, x.x1, a - x.x2, t), MovedSpeed(x.x1, a - x.x2, t), x.x2)
  }

  // ---------- correction ----------

  /** I - k e0^T. */
  function Residual(k: Vec3): Mat {
    Mat(Vec3(1.0 - k.x0, 0.0, 0.0), Vec3(0.0 - k.x1, 1.0, 0.0), Vec3(0.0 - k.x2, 0.0, 1.0))
  }

  function JosephCovariance(p: Mat, k: Vec3, r: real): Mat {
    Sum(Conjugate(Residual(k), p), Scale(r, Outer(k, k)))
  }

  function Nudged(x: real, k: real, innovation: real): real {
    x + k * innovation
  }

  function CorrectedMean(x: Vec3, y: real, k: Vec3): Vec3 {
    var innovation := y - x.x0;
    Vec3(Nudged(x.x0, k.x0, innovation), Nudged(x.x1, k.x1, innovation), Nudged(x.x2, k.x2, innovation))
  }

  /** The gain of the barometer update: first column of the covariance over the innovation variance. */
  function OptimalGain(p: Mat, r: real): Vec3
    requires p.r0.x0 + r != 0.0
  {
    Vec3(p.r0.x0 / (p.r0.x0 + r), p.r1.x0 / (p.r0.x0 + r), p.r2.x0 / (p.r0.x0 + r))
  }

  /** The fixed gain of the slow complementary observer. */
  function SlowGain(dt: real, omega: real): Vec3 {
    Vec3(2.0 * omega * dt, omega * omega * dt, 0.0)
  }

  // ---------- what they do to the error of the mean ----------

  /** A prediction carries the error of the mean by the map that carries the covariance. */
  lemma PredictionCarriesError(truth: Vec3, x: Vec3, a: real, t: real)
    ensures Minus(PredictedMean(truth, a, t), PredictedMean(x, a, t)) == Apply(Transition(t), Minus(truth, x))
  {
    RisenBy(truth, x, a, t);
    hide MovedHeight;
    hide MovedSpeed;
  }

  lemma RisenBy(truth: Vec3, x: Vec3, a: real, t: real)
    ensures var e := Minus(truth, x);
            && MovedHeight(truth.x0, truth.x1, a - truth.x2, t) - MovedHeight(x.x0, x.x1, a - x.x2, t) ==
                 1.0 * e.x0 + t * e.x1 + (-(t * t) / 2.0) * e.x2
            && MovedSpeed(truth.x1, a - truth.x2, t) - MovedSpeed(x.x1, a - x.x2, t) ==
                 0.0 * e.x0 + 1.0 * e.x1 + (-t) * e.x2
  {
  }

  /** A reading that is off by as much as the bias moves the mean like the right reading. */
  lemma BiasIsRemoved(x: Vec3, a: real, t: real, shift: real)
    ensures PredictedMean(Vec3(x.x0, x.x1, x.x2 + shift), a + shift, t) ==
              Vec3(PredictedMean(x, a, t).x0, PredictedMean(x, a, t).x1, x.x2 + shift)
  {
    assert a + shift - (x.x2 + shift) == a - x.x2;
  }

  /** Without bias the mean moves as a body under the measured acceleration does. */
  lemma MovesAsMeasured(z: real, v: real, a: real, t: real)
    ensures PredictedMean(Vec3(z, v, 0.0), a, t) == Vec3(z + v * t + a * t * t / 2.0, v + a * t, 0.0)
  {
  }

  /** A correction towards the true height carries the error of the mean by the map that carries the covariance. */
  lemma CorrectionCarriesError(truth: Vec3, x: Vec3, k: Vec3)
    ensures Minus(truth, CorrectedMean(x, truth.x0, k)) == Apply(Residual(k), Minus(truth, x))
  {
  }

  /** The barometer gain leaves r / (P00 + r) of the difference to the reading: less of it, on the same side. */
  lemma BaroShrinks(x: Vec3, y: real, p: Mat, r: real)
    requires p.r0.x0 >= 0.0 && r > 0.0
    ensures Product(p.r0.x0 + r, y - CorrectedMean(x, y, OptimalGain(p, r)).x0) == Product(r, y - x.x0)
  {
    var s := p.r0.x0 + r;
    Shares(p.r0.x0, s);
    LeftOver(y, x.x0, p.r0.x0, r, p.r0.x0 / s);
  }

  lemma Shares(a: real, s: real)
    requires s > 0.0
    ensures s * (a / s) == a
  {
  }

  lemma LeftOver(y: real, x: real, a: real, r: real, k: real)
    requires (a + r) * k == a
    ensures Product(a + r, y - (x + k * (y - x))) == Product(r, y - x)
  {
    Regrouped(a + r, k, y - x);
    MulEqual(y - x, (a + r) * k, a);
  }

  lemma Regrouped(s: real, k: real, d: real)
    ensures s * (d - k * d) == s * d - d * (s * k)
  {
  }

  /** The slow observer is critically damped: its double pole lies at omega, and the bias is left alone. */
  lemma SlowGainIsCritical(dt: real, omega: real)
    ensures var k := SlowGain(dt, omega);
            k.x0 * k.x0 == 4.0 * dt * k.x1 && k.x0 == 2.0 * (omega * dt) && k.x1 == omega * (omega * dt) && k.x2 == 0.0
  {
  }

  // ---------- prediction composes ----------

  /** The first component of a row carried over a step of length b. */
  function Lift(b: real, x0: real, x1: real, x2: real): real {
    x0 + b * x1 - (b * b / 2.0) * x2
  }

  function Slide(b: real, x1: real, x2: real): real {
    x1 - b * x2
  }

  /** One row of A times the transposed transition, written out. */
  function Carried(b: real, v: Vec3): Vec3 {
    Vec3(Lift(b, v.x0, v.x1, v.x2), Slide(b, v.x1, v.x2), v.x2)
  }

  lemma CarriedIsRow(b: real, v: Vec3)
    ensures ApplyRow(v, Transpose(Transition(b))) == Carried(b, v)
    ensures Apply(Transition(b), v) == Carried(b, v)
  {
  }

  lemma ConjugateByTransition(b: real, q: Mat)
    ensures Conjugate(Transition(b), q)
         == Mat(Carried(b, Vec3(Carried(b, q.Column(0)).x0, Carried(b, q.Column(1)).x0, Carried(b, q.Column(2)).x0)),
                Carried(b, Vec3(Carried(b, q.Column(0)).x1, Carried(b, q.Column(1)).x1, Carried(b, q.Column(2)).x1)),
                Carried(b, Vec3(Carried(b, q.Column(0)).x2, Carried(b, q.Column(1)).x2, Carried(b, q.Column(2)).x2)))
  {
    hide Dot;
    hide Carried;
    hide Transition;
    var f := Transition(b);
    CarriedIsRow(b, q.Column(0));
    CarriedIsRow(b, q.Column(1));
    CarriedIsRow(b, q.Column(2));
    var m := Mul(f, q);
    MulColumns(f, q);
    CarriedIsRow(b, m.r0);
    CarriedIsRow(b, m.r1);
    CarriedIsRow(b, m.r2);
  }

  lemma LiftSquare(a: real, b: real)
    ensures Lift(b, -(a * a) / 2.0, -a, 1.0) == -((a + b) * (a + b)) / 2.0
  {
  }

  lemma TransitionComposes(t1: real, t2: real)
    ensures Mul(Transition(t2), Transition(t1)) == Transition(t1 + t2)
  {
    var g := Transition(t1);
    LiftSquare(t1, t2);
    LiftPlain(t2);
    LiftStep(t1, t2);
    hide Dot;
    hide Lift;
    MulColumns(Transition(t2), g);
    CarriedIsRow(t2, g.Column(0));
    CarriedIsRow(t2, g.Column(1));
    CarriedIsRow(t2, g.Column(2));
    hide Mul;
  }

  lemma LiftPlain(b: real)
    ensures Lift(b, 1.0, 0.0, 0.0) == 1.0 && Slide(b, 0.0, 0.0) == 0.0 && Lift(b, 0.0, 0.0, 0.0) == 0.0
  {
  }

  lemma LiftStep(a: real, b: real)
    ensures Lift(b, a, 1.0, 0.0) == a + b && Slide(b, 1.0, 0.0) == 1.0 && Slide(b, -a, 1.0) == -(a + b)
  {
  }

  // The first row of the acceleration noise, carried over a step of length b.

  function White00(a: real, b: real): real { a * a * a / 3.0 + b * (a * a) / 2.0 }
  function White01(a: real, b: real): real { a * a / 2.0 + b * a }

  lemma WhiteColumns(a: real, b: real)
    ensures Carried(b, AccelerationNoise(a).Column(0)) == Vec3(White00(a, b), a * a / 2.0, 0.0)
    ensures Carried(b, AccelerationNoise(a).Column(1)) == Vec3(White01(a, b), a, 0.0)
    ensures Carried(b, AccelerationNoise(a).Column(2)) == Vec3(0.0, 0.0, 0.0)
  {
    WhiteLifts(a, b);
    LiftPlain(b);
    hide Lift;
    hide Slide;
    hide White00;
    hide White01;
  }

  lemma WhiteLifts(a: real, b: real)
    ensures Lift(b, a * a * a / 3.0, a * a / 2.0, 0.0) == White00(a, b) && Slide(b, a * a / 2.0, 0.0) == a * a / 2.0
    ensures Lift(b, a * a / 2.0, a, 0.0) == White01(a, b) && Slide(b, a, 0.0) == a
  {
  }

  lemma WhiteRows(a: real, b: real)
    ensures Lift(b, White00(a, b), White01(a, b), 0.0) + b * b * b / 3.0 == (a + b) * (a + b) * (a + b) / 3.0
    ensures Slide(b, White01(a, b), 0.0) + b * b / 2.0 == (a + b) * (a + b) / 2.0
    ensures Lift(b, a * a / 2.0, a, 0.0) + b * b / 2.0 == (a + b) * (a + b) / 2.0
    ensures Slide(b, a, 0.0) == a
  {
  }

  lemma AccelerationNoiseComposes(a: real, b: real)
    ensures Sum(Conjugate(Transition(b), AccelerationNoise(a)), AccelerationNoise(b)) == AccelerationNoise(a + b)
  {
    ConjugateByTransition(b, AccelerationNoise(a));
    WhiteColumns(a, b);
    hide Conjugate;
    hide Transition;
    WhiteRows(a, b);
    LiftPlain(b);
    hide Lift;
    hide Slide;
    hide White00;
    hide White01;
  }

  // The first row of the bias noise, carried over a step of length b.

  function Bias00(a: real, b: real): real {
    a * a * a * a * a / 20.0 + (a * a * a * a * b) / 8.0 + (a * a * a * b * b) / 12.0
  }
  function Bias01(a: real, b: real): real { a * a * a * a / 8.0 + (a * a * a * b) / 3.0 + (a * a * b * b) / 4.0 }
  function Bias02(a: real, b: real): real { -(a * a * a) / 6.0 - (a * a * b) / 2.0 - (a * b * b) / 2.0 }
  function Bias10(a: real, b: real): real { a * a * a * a / 8.0 + (a * a * a * b) / 6.0 }
  function Bias11(a: real, b: real): real { a * a * a / 3.0 + (a * a * b) / 2.0 }
  function Bias12(a: real, b: real): real { -(a * a) / 2.0 - a * b }

  lemma BiasColumns(a: real, b: real)
    ensures Carried(b, BiasNoise(a).Column(0)) == Vec3(Bias00(a, b), Bias10(a, b), -(a * a * a) / 6.0)
    ensures Carried(b, BiasNoise(a).Column(1)) == Vec3(Bias01(a, b), Bias11(a, b), -(a * a) / 2.0)
    ensures Carried(b, BiasNoise(a).Column(2)) == Vec3(Bias02(a, b), Bias12(a, b), a)
  {
    BiasColumn0(a, b);
    BiasColumn1(a, b);
    BiasColumn2(a, b);
    hide Lift;
    hide Slide;
    hide Bias00;
    hide Bias01;
    hide Bias02;
    hide Bias10;
    hide Bias11;
    hide Bias12;
  }

  lemma BiasColumn0(a: real, b: real)
    ensures Lift(b, a * a * a * a * a / 20.0, a * a * a * a / 8.0, -(a * a * a) / 6.0) == Bias00(a, b)
    ensures Slide(b, a * a * a * a / 8.0, -(a * a * a) / 6.0) == Bias10(a, b)
  {
  }

  lemma BiasColumn1(a: real, b: real)
    ensures Lift(b, a * a * a * a / 8.0, a * a * a / 3.0, -(a * a) / 2.0) == Bias01(a, b)
    ensures Slide(b, a * a * a / 3.0, -(a * a) / 2.0) == Bias11(a, b)
  {
  }

  lemma BiasColumn2(a: real, b: real)
    ensures Lift(b, -(a * a * a) / 6.0, -(a * a) / 2.0, a) == Bias02(a, b)
    ensures Slide(b, -(a * a) / 2.0, a) == Bias12(a, b)
  {
  }

  lemma BiasRow0(a: real, b: real)
    ensures Lift(b, Bias00(a, b), Bias01(a, b), Bias02(a, b)) + b * b * b * b * b / 20.0
         == (a + b) * (a + b) * (a + b) * (a + b) * (a + b) / 20.0
    ensures Slide(b, Bias01(a, b), Bias02(a, b)) + b * b * b * b / 8.0 == (a + b) * (a + b) * (a + b) * (a + b) / 8.0
    ensures Bias02(a, b) - b * b * b / 6.0 == -((a + b) * (a + b) * (a + b)) / 6.0
  {
  }

  lemma BiasRow1(a: real, b: real)
    ensures Lift(b, Bias10(a, b), Bias11(a, b), Bias12(a, b)) + b * b * b * b / 8.0
         == (a + b) * (a + b) * (a + b) * (a + b) / 8.0
    ensures Slide(b, Bias11(a, b), Bias12(a, b)) + b * b * b / 3.0 == (a + b) * (a + b) * (a + b) / 3.0
    ensures Bias12(a, b) - b * b / 2.0 == -((a + b) * (a + b)) / 2.0
  {
  }

  lemma BiasNoiseComposes(a: real, b: real)
    ensures Sum(Conjugate(Transition(b), BiasNoise(a)), BiasNoise(b)) == BiasNoise(a + b)
  {
    ConjugateByTransition(b, BiasNoise(a));
    BiasColumns(a, b);
    hide Conjugate;
    hide Transition;
    BiasRow0(a, b);
    BiasRow1(a, b);
    hide Lift;
    hide Slide;
    hide Bias00;
    hide Bias01;
    hide Bias02;
    hide Bias10;
    hide Bias11;
    hide Bias12;
  }

  /** Two predictions in a row are one prediction over the whole time, covariance included. */
  lemma PredictionComposes(p: Mat, qa: real, qb: real, t1: real, t2: real)
    ensures PredictedCovariance(PredictedCovariance(p, qa, qb, t1), qa, qb, t2) ==
            PredictedCovariance(p, qa, qb, t1 + t2)
  {
    hide Conjugate;
    hide Transition;
    hide AccelerationNoise;
    hide BiasNoise;
    hide Scale;
    var f1, f2 := Transition(t1), Transition(t2);
    var a1, a2, b1, b2 := AccelerationNoise(t1), AccelerationNoise(t2), BiasNoise(t1), BiasNoise(t2);
    ConjugateSum(f2, Conjugate(f1, p), Noise(qa, qb, t1));
    ConjugateSum(f2, Scale(qa, a1), Scale(qb, b1));
    ConjugateCompose(f2, f1, p);
    TransitionComposes(t1, t2);
    ConjugateScale(f2, qa, a1);
    ConjugateScale(f2, qb, b1);
    AccelerationNoiseComposes(t1, t2);
    BiasNoiseComposes(t1, t2);
    ScaleSum(qa, Conjugate(f2, a1), a2);
    ScaleSum(qb, Conjugate(f2, b1), b2);
  }

  lemma ScaleSum(k: real, p: Mat, q: Mat)
    ensures Scale(k, Sum(p, q)) == Sum(Scale(k, p), Scale(k, q))
  {
    TimesPlus(k, p.r0, q.r0);
    TimesPlus(k, p.r1, q.r1);
    TimesPlus(k, p.r2, q.r2);
    hide Times;
    hide Plus;
  }

  lemma TimesPlus(k: real, a: Vec3, b: Vec3)
    ensures Times(k, Plus(a, b)) == Plus(Times(k, a), Times(k, b))
  {
  }

  lemma MeanComposes(x: Vec3, a: real, t1: real, t2: real)
    ensures PredictedMean(PredictedMean(x, a, t1), a, t2) == PredictedMean(x, a, t1 + t2)
  {
  }

  // ---------- covariances stay covariances ----------

  ghost predicate Covariance(p: Mat) {
    Symmetric(p) && PositiveSemidefinite(p)
  }

  lemma AccelerationNoiseSemidefinite(t: real)
    requires t >= 0.0
    ensures PositiveSemidefinite(AccelerationNoise(t))
  {
    forall y: Vec3
      ensures Quad(AccelerationNoise(t), y) >= 0.0
    {
      var d, e := y.x1 + t * y.x0 / 2.0, t * y.x0;
      calc {
        Quad(AccelerationNoise(t), y);
        (t * t * t / 3.0) * (y.x0 * y.x0) + (t * t) * (y.x0 * y.x1) + t * (y.x1 * y.x1);
        t * (d * d + e * e / 12.0);
      }
      Square(d);
      Square(e);
      MulNonNegative(t, d * d + e * e / 12.0);
    }
  }

  lemma BiasNoiseSemidefinite(t: real)
    requires t >= 0.0
    ensures PositiveSemidefinite(BiasNoise(t))
  {
    forall y: Vec3
      ensures Quad(BiasNoise(t), y) >= 0.0
    {
      BiasQuad(t, y);
      hide Quad;
      hide BiasNoise;
      var total := BiasTotal(t, y);
      MulNonNegative(t, total);
    }
  }

  function BiasTotal(t: real, y: Vec3): (total: real)
    ensures total >= 0.0
  {
    BiasSquares(y.x2, t * y.x1, t * t * y.x0);
    BiasForm(y.x2, t * y.x1, t * t * y.x0)
  }

  function Slope0(u: real, v: real, w: real): real { w / 20.0 + v / 8.0 - u / 6.0 }
  function Slope1(u: real, v: real, w: real): real { w / 8.0 + v / 3.0 - u / 2.0 }
  function Slope2(u: real, v: real, w: real): real { -w / 6.0 - v / 2.0 + u }

  function BiasForm(u: real, v: real, w: real): real {
    w * Slope0(u, v, w) + v * Slope1(u, v, w) + u * Slope2(u, v, w)
  }

  /** The form is a sum of squares. */
  lemma BiasSquares(u: real, v: real, w: real)
    ensures BiasForm(u, v, w) >= 0.0
  {
    var d, e := u - v / 2.0 - w / 6.0, v + w / 2.0;
    assert BiasForm(u, v, w) == d * d + e * e / 12.0 + w * w / 720.0;
    Square(d);
    Square(e);
    Square(w);
  }

  lemma BiasApplied(t: real, y: Vec3)
    ensures Dot(BiasNoise(t).r0, y) == t * t * t * Slope0(y.x2, t * y.x1, t * t * y.x0)
    ensures Dot(BiasNoise(t).r1, y) == t * t * Slope1(y.x2, t * y.x1, t * t * y.x0)
    ensures Dot(BiasNoise(t).r2, y) == t * Slope2(y.x2, t * y.x1, t * t * y.x0)
  {
  }

  lemma Rescale(t: real, y: Vec3, a: Vec3, s0: real, s1: real, s2: real)
    requires a == Vec3(t * t * t * s0, t * t * s1, t * s2)
    ensures Dot(y, a) == t * ((t * t * y.x0) * s0 + (t * y.x1) * s1 + y.x2 * s2)
  {
  }

  lemma BiasQuad(t: real, y: Vec3)
    ensures Quad(BiasNoise(t), y) == t * BiasTotal(t, y)
  {
    BiasApplied(t, y);
    hide Dot;
    hide BiasNoise;
    var u, v, w := y.x2, t * y.x1, t * t * y.x0;
    Rescale(t, y, Apply(BiasNoise(t), y), Slope0(u, v, w), Slope1(u, v, w), Slope2(u, v, w));
    hide Slope0;
    hide Slope1;
    hide Slope2;
    MulEqual(t, BiasTotal(t, y), w * Slope0(u, v, w) + v * Slope1(u, v, w) + u * Slope2(u, v, w));
  }

  lemma NoiseIsCovariance(qa: real, qb: real, t: real)
    requires qa >= 0.0 && qb >= 0.0 && t >= 0.0
    ensures Covariance(Noise(qa, qb, t))
  {
    AccelerationNoiseSemidefinite(t);
    BiasNoiseSemidefinite(t);
    hide Quad;
    ScaleSemidefinite(qa, AccelerationNoise(t));
    ScaleSemidefinite(qb, BiasNoise(t));
    SumSemidefinite(Scale(qa, AccelerationNoise(t)), Scale(qb, BiasNoise(t)));
  }

  /** Prediction keeps a covariance a covariance. */
  lemma PredictionKeepsCovariance(p: Mat, qa: real, qb: real, t: real)
    requires Covariance(p) && qa >= 0.0 && qb >= 0.0 && t >= 0.0
    ensures Covariance(PredictedCovariance(p, qa, qb, t))
  {
    hide Conjugate;
    hide Quad;
    hide Noise;
    hide Transition;
    var f := Transition(t);
    ConjugateSemidefinite(f, p);
    ConjugateSymmetric(f, p);
    NoiseIsCovariance(qa, qb, t);
    SumSemidefinite(Conjugate(f, p), Noise(qa, qb, t));
    SumSymmetric(Conjugate(f, p), Noise(qa, qb, t));
  }

  /** A Joseph update keeps a covariance a covariance, whatever the gain. */
  lemma JosephKeepsCovariance(p: Mat, k: Vec3, r: real)
    requires Covariance(p) && r >= 0.0
    ensures Covariance(JosephCovariance(p, k, r))
  {
    hide Conjugate;
    hide Quad;
    hide Residual;
    var a := Residual(k);
    ConjugateSemidefinite(a, p);
    ConjugateSymmetric(a, p);
    OuterSemidefinite(k);
    ScaleSemidefinite(r, Outer(k, k));
    ScaledOuterSymmetric(r, k);
    hide Scale;
    hide Outer;
    SumSemidefinite(Conjugate(a, p), Scale(r, Outer(k, k)));
    SumSymmetric(Conjugate(a, p), Scale(r, Outer(k, k)));
  }

  lemma ScaledOuterSymmetric(r: real, k: Vec3)
    ensures Symmetric(Scale(r, Outer(k, k)))
  {
  }

  // ---------- optimality of the barometer gain ----------

  /** The form after a rank-one shift: q - 2 g c + s g^2. */
  function Shifted(q: real, g: real, c: real, s: real): real {
    q - 2.0 * (g * c) + s * Squared(g)
  }

  lemma ShiftedPlus(q: real, g: real, c: real, s: real, r: real)
    ensures Shifted(q, g, c, s) + r * Squared(g) == Shifted(q, g, c, s + r)
  {
  }

  /** A Joseph update in one direction: only the gain along that direction and the first column matter. */
  lemma JosephQuad(p: Mat, k: Vec3, r: real, y: Vec3)
    requires Symmetric(p)
    ensures Quad(JosephCovariance(p, k, r), y) == Shifted(Quad(p, y), Dot(k, y), Dot(p.r0, y), p.r0.x0 + r)
  {
    assert ApplyRow(y, Residual(k)) == Vec3(y.x0 - Dot(k, y), y.x1, y.x2);
    ShiftedQuad(p, y, Dot(k, y));
    hide *;
    JosephIs(p, k, r);
    QuadConjugate(Residual(k), p, y);
    QuadScale(r, Outer(k, k), y);
    QuadOuter(k, y);
    MulEqual(r, Quad(Outer(k, k), y), Squared(Dot(k, y)));
    QuadSum(Conjugate(Residual(k), p), Scale(r, Outer(k, k)), y);
    ShiftedPlus(Quad(p, y), Dot(k, y), Dot(p.r0, y), p.r0.x0, r);
  }

  lemma JosephIs(p: Mat, k: Vec3, r: real)
    ensures JosephCovariance(p, k, r) == Sum(Conjugate(Residual(k), p), Scale(r, Outer(k, k)))
  {
  }

  lemma ShiftedQuad(p: Mat, y: Vec3, g: real)
    requires Symmetric(p)
    ensures Quad(p, Vec3(y.x0 - g, y.x1, y.x2)) == Shifted(Quad(p, y), g, Dot(p.r0, y), p.r0.x0)
  {
  }

  function Minus(a: Vec3, b: Vec3): Vec3 {
    Vec3(a.x0 - b.x0, a.x1 - b.x1, a.x2 - b.x2)
  }

  lemma OptimalDot(p: Mat, r: real, y: Vec3)
    requires Symmetric(p) && p.r0.x0 + r > 0.0
    ensures (p.r0.x0 + r) * Dot(OptimalGain(p, r), y) == Dot(p.r0, y)
  {
  }

  lemma DotMinus(a: Vec3, b: Vec3, y: Vec3)
    ensures Dot(Minus(a, b), y) == Dot(a, y) - Dot(b, y)
  {
  }

  lemma CompleteSquare(q: real, g: real, h: real, c: real, s: real)
    requires s * h == c
    ensures Shifted(q, g, c, s) == Shifted(q, h, c, s) + s * Squared(g - h)
    ensures Shifted(q, h, c, s) == q - s * Squared(h)
  {
  }

  /** Any gain k leaves exactly (P00 + r)(k - k*)(k - k*)^T more covariance than the optimal gain k*. */
  lemma GainGap(p: Mat, k: Vec3, r: real)
    requires Covariance(p) && r > 0.0
    ensures p.r0.x0 + r > 0.0
    ensures var best := OptimalGain(p, r);
            JosephCovariance(p, k, r)
            == Sum(JosephCovariance(p, best, r), Scale(p.r0.x0 + r, Outer(Minus(k, best), Minus(k, best))))
  {
    SemidefiniteDiagonal(p);
    var s, best := p.r0.x0 + r, OptimalGain(p, r);
    var d := Minus(k, best);
    var left, right := JosephCovariance(p, k, r), Sum(JosephCovariance(p, best, r), Scale(s, Outer(d, d)));
    hide JosephCovariance;
    JosephKeepsCovariance(p, k, r);
    JosephKeepsCovariance(p, best, r);
    ScaledOuterSymmetric(s, d);
    SumSymmetric(JosephCovariance(p, best, r), Scale(s, Outer(d, d)));
    forall y: Vec3
      ensures Quad(left, y) == Quad(right, y)
    {
      GapQuad(p, k, r, y);
    }
    SymmetricByQuad(left, right);
  }

  lemma GapQuad(p: Mat, k: Vec3, r: real, y: Vec3)
    requires Symmetric(p) && p.r0.x0 + r > 0.0
    ensures var s, best := p.r0.x0 + r, OptimalGain(p, r);
            var d := Minus(k, best);
            Quad(JosephCovariance(p, k, r), y) == Quad(Sum(JosephCovariance(p, best, r), Scale(s, Outer(d, d))), y)
  {
    hide Quad;
    hide Dot;
    hide JosephCovariance;
    hide OptimalGain;
    hide Minus;
    hide Outer;
    var s, best := p.r0.x0 + r, OptimalGain(p, r);
    var d := Minus(k, best);
    JosephQuad(p, k, r, y);
    JosephQuad(p, best, r, y);
    QuadSum(JosephCovariance(p, best, r), Scale(s, Outer(d, d)), y);
    QuadScale(s, Outer(d, d), y);
    QuadOuter(d, y);
    DotMinus(k, best, y);
    OptimalDot(p, r, y);
    CompleteSquare(Quad(p, y), Dot(k, y), Dot(best, y), Dot(p.r0, y), s);
    hide *;
  }

  lemma QuadEntries(m: Mat)
    requires Symmetric(m)
    ensures Quad(m, Vec3(1.0, 0.0, 0.0)) == m.r0.x0
    ensures Quad(m, Vec3(0.0, 1.0, 0.0)) == m.r1.x1
    ensures Quad(m, Vec3(0.0, 0.0, 1.0)) == m.r2.x2
    ensures Quad(m, Vec3(1.0, 1.0, 0.0)) == m.r0.x0 + m.r1.x1 + 2.0 * m.r0.x1
    ensures Quad(m, Vec3(1.0, 0.0, 1.0)) == m.r0.x0 + m.r2.x2 + 2.0 * m.r0.x2
    ensures Quad(m, Vec3(0.0, 1.0, 1.0)) == m.r1.x1 + m.r2.x2 + 2.0 * m.r1.x2
  {
  }

  lemma SymmetricByQuad(m: Mat, n: Mat)
    requires Symmetric(m) && Symmetric(n)
    requires forall y :: Quad(m, y) == Quad(n, y)
    ensures m == n
  {
    hide Quad;
    QuadEntries(m);
    QuadEntries(n);
  }

  /** The optimal update is at most any other update of the same covariance, and at most the prior. */
  lemma OptimalIsLeast(p: Mat, k: Vec3, r: real)
    requires Covariance(p) && r > 0.0 && p.r0.x0 + r > 0.0
    ensures AtMost(JosephCovariance(p, OptimalGain(p, r), r), JosephCovariance(p, k, r))
    ensures AtMost(JosephCovariance(p, OptimalGain(p, r), r), p)
  {
    hide Quad;
    hide Dot;
    hide JosephCovariance;
    hide OptimalGain;
    var s, best := p.r0.x0 + r, OptimalGain(p, r);
    forall y: Vec3
      ensures Quad(JosephCovariance(p, best, r), y) <= Quad(JosephCovariance(p, k, r), y)
      ensures Quad(JosephCovariance(p, best, r), y) <= Quad(p, y)
    {
      JosephQuad(p, k, r, y);
      JosephQuad(p, best, r, y);
      OptimalDot(p, r, y);
      var g, h := Dot(k, y), Dot(best, y);
      CompleteSquare(Quad(p, y), g, h, Dot(p.r0, y), s);
      MulNonNegative(s, Squared(g - h));
      MulNonNegative(s, Squared(h));
    }
  }

  lemma JosephMonotone(p: Mat, q: Mat, k: Vec3, r: real)
    requires AtMost(p, q)
    ensures AtMost(JosephCovariance(p, k, r), JosephCovariance(q, k, r))
  {
    hide Quad;
    hide Conjugate;
    ConjugateMonotone(Residual(k), p, q);
    SumMonotone(Conjugate(Residual(k), p), Conjugate(Residual(k), q), Scale(r, Outer(k, k)));
  }

  lemma PredictionMonotone(p: Mat, q: Mat, qa: real, qb: real, t: real)
    requires AtMost(p, q)
    ensures AtMost(PredictedCovariance(p, qa, qb, t), PredictedCovariance(q, qa, qb, t))
  {
    hide Quad;
    hide Conjugate;
    ConjugateMonotone(Transition(t), p, q);
    SumMonotone(Conjugate(Transition(t), p), Conjugate(Transition(t), q), Noise(qa, qb, t));
  }

  // ---------- whole schedules ----------

  datatype Event = Prediction(t: real) | Barometer(r: real) {
    predicate Admissible() {
      match this
      case Prediction(t) => 0.0 < t
      case Barometer(r) => r > 0.0
    }
  }

  predicate Schedule(events: seq<Event>) {
    forall i :: 0 <= i < |events| ==> events[i].Admissible()
  }

  /** Covariance after the first n events when every barometer reading uses the gain given for it. */
  function GainRun(p: Mat, qa: real, qb: real, events: seq<Event>, gains: seq<Vec3>, n: nat): Mat
    requires n <= |events| == |gains|
  {
    if n == 0 then p
    else
      var before := GainRun(p, qa, qb, events, gains, n - 1);
      match events[n - 1]
      case Prediction(t) => PredictedCovariance(before, qa, qb, t)
      case Barometer(r) => JosephCovariance(before, gains[n - 1], r)
  }

  /** Covariance after the first n events of the optimal filter. */
  ghost function OptimalRun(p: Mat, qa: real, qb: real, events: seq<Event>, n: nat): (q: Mat)
    requires n <= |events| && Schedule(events) && Covariance(p) && qa >= 0.0 && qb >= 0.0
    ensures Covariance(q)
  {
    if n == 0 then p
    else
      var before := OptimalRun(p, qa, qb, events, n - 1);
      match events[n - 1]
      case Prediction(t) => PredictionKeepsCovariance(before, qa, qb, t); PredictedCovariance(before, qa, qb, t)
      case Barometer(r) =>
        SemidefiniteDiagonal(before);
        JosephKeepsCovariance(before, OptimalGain(before, r), r);
        JosephCovariance(before, OptimalGain(before, r), r)
  }

  /** No choice of gains, constant or adaptive, beats the optimal filter at any point of any schedule. */
  lemma {:induction false} OptimalRunIsLeast(p: Mat, qa: real, qb: real, events: seq<Event>, gains: seq<Vec3>, n: nat)
    requires n <= |events| == |gains| && Schedule(events) && Covariance(p) && qa >= 0.0 && qb >= 0.0
    ensures AtMost(OptimalRun(p, qa, qb, events, n), GainRun(p, qa, qb, events, gains, n))
  {
    hide Quad;
    hide JosephCovariance;
    hide PredictedCovariance;
    hide OptimalGain;
    if n > 0 {
      var best, other := OptimalRun(p, qa, qb, events, n - 1), GainRun(p, qa, qb, events, gains, n - 1);
      OptimalRunIsLeast(p, qa, qb, events, gains, n - 1);
      match events[n - 1]
      case Prediction(t) =>
        PredictionMonotone(best, other, qa, qb, t);
      case Barometer(r) =>
        SemidefiniteDiagonal(best);
        OptimalIsLeast(best, gains[n - 1], r);
        JosephMonotone(best, other, gains[n - 1], r);
    }
  }
}
