/**
 The inertial replay: accelerometer rows become acceleration intervals around a nominal
 value, and integrating them gives a displacement interval around a nominal displacement.
 Times are in seconds, forces in multiples of g.
 */
module VerticalReplay {
  import opened Wrappers
  import opened Reals
  import opened Median

  const G := 9.80665
  const MARGIN := 0.06
  const IMU_MAX_GAP := 0.050000000001
  const CALIBRATION := 30.0
  const CALIBRATION_ROWS := 100

  datatype Refusal =
    | ReversedInterval | ShortCalibration | NegativeBound | TiltBound | FewCalibrationRows
    | FewRows | RowGap | OutsideCoverage | NoBracket | NoDuration

  /** The library functions of the cone model; angles in degrees. */
  datatype Library = Library(cosine: real -> real, sine: real -> real, hypot: (real, real) -> real)

  /** What is used of them: signs and sizes below a right angle, and the length of a vector. */
  ghost predicate Faithful(f: Library) {
    && (forall d :: 0.0 <= d < 90.0 ==> 0.0 <= f.cosine(d) <= 1.0 && 0.0 <= f.sine(d) <= 1.0)
    && (forall a, b :: f.hypot(a, b) >= 0.0 && Squared(f.hypot(a, b)) == Squared(a) + Squared(b))
  }

  /** One accelerometer row. */
  datatype Row = Row(t: real, ax: real, ay: real, az: real)

  datatype Bounds = Bounds(forceError: real, tilt: real, initialVelocity: real, intersample: real, sensorTime: real) {
    predicate NonNegative() {
      forceError >= 0.0 && tilt >= 0.0 && initialVelocity >= 0.0 && intersample >= 0.0 && sensorTime >= 0.0
    }
  }

  datatype Interval = Interval(lo: real, hi: real)

  predicate Increasing(rows: seq<Row>) {
    forall i, j :: 0 <= i < j < |rows| ==> rows[i].t < rows[j].t
  }

  // ---------- force on the vertical ----------

  function HorizontalReach(f: Library, r: Row, e: real): real {
    f.hypot(Abs(r.ax) + e, Abs(r.ay) + e)
  }

  function VerticalForce(f: Library, r: Row, e: real, tilt: real): Interval {
    var c, s, reach := f.cosine(tilt), f.sine(tilt), HorizontalReach(f, r, e);
    var zlo, zhi := r.az - e, r.az + e;
    Interval(Min4(zlo, zhi, Product(zlo, c), Product(zhi, c)) - Product(reach, s),
             Max4(zlo, zhi, Product(zlo, c), Product(zhi, c)) + Product(reach, s))
  }

  /** The interval always contains the measured body axis component itself. */
  lemma ForceNested(f: Library, r: Row, e: real, tilt: real)
    requires Faithful(f) && e >= 0.0 && 0.0 <= tilt < 90.0
    ensures VerticalForce(f, r, e, tilt).lo <= r.az <= VerticalForce(f, r, e, tilt).hi
  {
    var s, reach := f.sine(tilt), HorizontalReach(f, r, e);
    assert s >= 0.0 && reach >= 0.0;
    hide Product;
    hide HorizontalReach;
    ProductNonNegative(reach, s);
  }

  /** A product with a factor between c and 1 stays between the corner products. */
  lemma ScaledBetween(z: real, zlo: real, zhi: real, k: real, c: real)
    requires zlo <= z <= zhi && 0.0 <= c <= k <= 1.0
    ensures Min4(zlo, zhi, Product(zlo, c), Product(zhi, c)) <= Product(z, k) <= Max4(zlo, zhi, Product(zlo, c),
            Product(zhi, c))
  {
    ProductMonotone(zlo, z, k);
    ProductMonotone(z, zhi, k);
    Toward(zlo, k, c);
    Toward(zhi, k, c);
    hide Product;
  }

  lemma Toward(z: real, k: real, c: real)
    requires 0.0 <= c <= k <= 1.0
    ensures Min(z, Product(z, c)) <= Product(z, k) <= Max(z, Product(z, c))
  {
    if z >= 0.0 {
      MulNonNegative(z, k - c);
      MulNonNegative(z, 1.0 - k);
    } else {
      MulNonNegative(-z, k - c);
      MulNonNegative(-z, 1.0 - k);
    }
  }

  /** (xu + yv)^2 <= (x^2 + y^2)(u^2 + v^2), with unit direction. */
  lemma Cauchy(x: real, y: real, u: real, v: real)
    requires Squared(u) + Squared(v) == 1.0
    ensures Squared(x * u + y * v) <= Squared(x) + Squared(y)
  {
    Square(x * v - y * u);
    MulEqual(Squared(x) + Squared(y), Squared(u) + Squared(v), 1.0);
    hide Squared;
  }

  lemma SquareOrder(x: real, r: real)
    requires r >= 0.0 && Squared(x) <= Squared(r)
    ensures Abs(x) <= r
  {
    if Abs(x) > r {
      MulStrict(r, Abs(x));
    }
  }

  lemma MulStrict(r: real, a: real)
    requires 0.0 <= r < a
    ensures Squared(r) < Squared(a)
  {
    MulPositive(a - r, a + r);
    assert Product(a - r, a + r) > 0.0;
    hide Squared;
    hide Product;
  }

  lemma SquareMonotone(x: real, bound: real)
    requires Abs(x) <= bound
    ensures Squared(x) <= Squared(bound)
  {
    ProductNonNegative(bound - Abs(x), bound + Abs(x));
    hide Squared;
    hide Product;
  }

  /** The force along a vertical that leans by an angle of cosine ct and sine st towards (u, v). */
  function AlongVertical(fx: real, fy: real, fz: real, ct: real, st: real, u: real, v: real): real {
    Product(fz, ct) + Product(fx * u + fy * v, st)
  }

  /** A force on the body axes, and a vertical that leans by an angle of cosine ct and sine st towards (u, v). */
  datatype Truth = Truth(fx: real, fy: real, fz: real, ct: real, st: real, u: real, v: real)

  /** What the declared sensor bounds admit behind one row. */
  ghost predicate Senses(f: Library, r: Row, b: Bounds, w: Truth) {
    && Abs(w.fx - r.ax) <= b.forceError && Abs(w.fy - r.ay) <= b.forceError && Abs(w.fz - r.az) <= b.forceError
    && f.cosine(b.tilt) <= w.ct <= 1.0 && 0.0 <= w.st <= f.sine(b.tilt) && Squared(w.u) + Squared(w.v) == 1.0
  }

  function Vertical(w: Truth): real {
    AlongVertical(w.fx, w.fy, w.fz, w.ct, w.st, w.u, w.v)
  }

  /** The true force along a vertical tilted by at most the bound, in any direction, is in the interval. */
  lemma ForceEncloses(f: Library, r: Row, e: real, tilt: real, fx: real, fy: real, fz: real, ct: real, st: real,
                      u: real, v: real)
    requires Faithful(f) && e >= 0.0 && 0.0 <= tilt < 90.0
    requires Abs(fx - r.ax) <= e && Abs(fy - r.ay) <= e && Abs(fz - r.az) <= e
    requires f.cosine(tilt) <= ct <= 1.0 && 0.0 <= st <= f.sine(tilt) && Squared(u) + Squared(v) == 1.0
    ensures VerticalForce(f, r, e, tilt).lo <= AlongVertical(fx, fy, fz, ct, st, u, v) <= VerticalForce(f, r, e,
            tilt).hi
  {
    ReachBounds(f, r, e, fx, fy, u, v);
    ScaledBetween(fz, r.az - e, r.az + e, ct, f.cosine(tilt));
    SignedBetween(fx * u + fy * v, HorizontalReach(f, r, e), st, f.sine(tilt));
    hide *;
  }

  lemma ReachBounds(f: Library, r: Row, e: real, fx: real, fy: real, u: real, v: real)
    requires Faithful(f) && Abs(fx - r.ax) <= e && Abs(fy - r.ay) <= e && Squared(u) + Squared(v) == 1.0
    ensures Abs(fx * u + fy * v) <= HorizontalReach(f, r, e) && HorizontalReach(f, r, e) >= 0.0
  {
    Cauchy(fx, fy, u, v);
    SquareMonotone(fx, Abs(r.ax) + e);
    SquareMonotone(fy, Abs(r.ay) + e);
    hide Squared;
    var h := fx * u + fy * v;
    assert Squared(h) <= Squared(HorizontalReach(f, r, e));
    SquareOrder(h, HorizontalReach(f, r, e));
  }

  lemma SignedBetween(h: real, reach: real, st: real, s: real)
    requires Abs(h) <= reach && 0.0 <= st <= s
    ensures -Product(reach, s) <= Product(h, st) <= Product(reach, s)
  {
  }

  // ---------- preparation ----------

  function Between(rows: seq<Row>, lo: real, hi: real): (r: seq<Row>)
    ensures forall i :: 0 <= i < |r| ==> r[i] in rows && lo <= r[i].t <= hi
    ensures forall row :: row in rows && lo <= row.t <= hi ==> row in r
  {
    if rows == [] then []
    else
      var last := rows[|rows| - 1];
      Between(rows[..|rows| - 1], lo, hi) + if lo <= last.t <= hi then [last] else []
  }

  lemma {:induction false} BetweenIncreasing(rows: seq<Row>, lo: real, hi: real)
    requires Increasing(rows)
    ensures Increasing(Between(rows, lo, hi))
  {
    if rows != [] {
      var front, last := rows[..|rows| - 1], rows[|rows| - 1];
      BetweenIncreasing(front, lo, hi);
      var kept := Between(front, lo, hi);
      forall i | 0 <= i < |kept|
        ensures kept[i].t < last.t
      {
        assert kept[i] in front;
      }
    }
  }

  function Nominals(rows: seq<Row>): (r: seq<real>)
    ensures |r| == |rows|
  {
    seq(|rows|, i requires 0 <= i < |rows| => rows[i].az)
  }

  function Lows(f: Library, rows: seq<Row>, e: real, tilt: real): (r: seq<real>)
    ensures |r| == |rows|
  {
    seq(|rows|, i requires 0 <= i < |rows| => VerticalForce(f, rows[i], e, tilt).lo)
  }

  function Highs(f: Library, rows: seq<Row>, e: real, tilt: real): (r: seq<real>)
    ensures |r| == |rows|
  {
    seq(|rows|, i requires 0 <= i < |rows| => VerticalForce(f, rows[i], e, tilt).hi)
  }

  datatype Prep = Prep(nominalZero: real, zero: Interval, bounds: Bounds)

  /** Zero levels over the time that is inside calibration for every admissible endpoint. */
  function Preparation(f: Library, imu: seq<Row>, c0: Interval, c1: Interval, b: Bounds): Result<Prep, Refusal> {
    if c0.lo > c0.hi || c1.lo > c1.hi then Err(ReversedInterval)
    else if c0.hi < 0.0 || c1.lo - c0.hi < CALIBRATION then Err(ShortCalibration)
    else if !b.NonNegative() then Err(NegativeBound)
    else if b.tilt >= 90.0 then Err(TiltBound)
    else
      var rows := Between(imu, c0.hi, c1.lo);
      if |rows| < CALIBRATION_ROWS then Err(FewCalibrationRows)
      else Ok(Prep(Median.Median(Nominals(rows)),
                   Interval(Median.Median(Lows(f, rows, b.forceError, b.tilt)),
                       Median.Median(Highs(f, rows, b.forceError, b.tilt))), b))
  }

  predicate Sound(p: Prep) {
    p.bounds.NonNegative() && p.bounds.tilt < 90.0 && p.zero.lo <= p.nominalZero <= p.zero.hi
  }

  /**
   Preparation succeeds exactly over at least 30 s and 100 rows that are calibration for every admissible endpoint,
   with usable bounds.
   */
  lemma PreparedExactly(f: Library, imu: seq<Row>, c0: Interval, c1: Interval, b: Bounds)
    ensures Preparation(f, imu, c0, c1, b).Ok? <==>
              && c0.lo <= c0.hi && c1.lo <= c1.hi && 0.0 <= c0.hi <= c1.lo - 30.0
              && 0.0 <= b.forceError && 0.0 <= b.tilt < 90.0 && 0.0 <= b.initialVelocity && 0.0 <= b.intersample
              && 0.0 <= b.sensorTime && |Between(imu, c0.hi, c1.lo)| >= 100
  {
    hide Median.Median;
    hide Between;
    hide Lows;
    hide Highs;
  }

  /** The nominal zero lies in the zero interval, because medians follow their arguments. */
  lemma ZeroNested(f: Library, imu: seq<Row>, c0: Interval, c1: Interval, b: Bounds)
    requires Faithful(f) && Preparation(f, imu, c0, c1, b).Ok?
    ensures Sound(Preparation(f, imu, c0, c1, b).value)
  {
    var rows := Between(imu, c0.hi, c1.lo);
    var los, mid, his := Lows(f, rows, b.forceError, b.tilt), Nominals(rows), Highs(f, rows, b.forceError, b.tilt);
    forall i | 0 <= i < |rows|
      ensures los[i] <= mid[i] <= his[i]
    {
      ForceNested(f, rows[i], b.forceError, b.tilt);
    }
    MedianMonotone(los, mid);
    MedianMonotone(mid, his);
  }

  // ---------- projection ----------

  /** An acceleration with its bounds at one instant. */
  datatype Point = Point(t: real, nominal: real, lo: real, hi: real)

  predicate Nested(p: Point) {
    p.lo <= p.nominal <= p.hi
  }

  predicate AllNested(ps: seq<Point>) {
    forall i :: 0 <= i < |ps| ==> Nested(ps[i])
  }

  predicate Forward(ps: seq<Point>) {
    forall i, j :: 0 <= i < j < |ps| ==> ps[i].t < ps[j].t
  }

  function Project(f: Library, p: Prep, r: Row): Point {
    var force := VerticalForce(f, r, p.bounds.forceError, p.bounds.tilt);
    Point(r.t, (r.az - p.nominalZero) * G, (force.lo - p.zero.hi) * G, (force.hi - p.zero.lo) * G)
  }

  function Projected(f: Library, p: Prep, rows: seq<Row>): (r: seq<Point>)
    ensures |r| == |rows|
  {
    seq(|rows|, i requires 0 <= i < |rows| => Project(f, p, rows[i]))
  }

  predicate Gapless(ps: seq<Point>) {
    forall i :: 0 < i < |ps| ==> ps[i].t - ps[i - 1].t <= IMU_MAX_GAP
  }

  function ProjectedSamples(f: Library, imu: seq<Row>, lo: real, hi: real, p: Prep): Result<seq<Point>, Refusal> {
    var ps := Projected(f, p, Between(imu, lo - MARGIN, hi + MARGIN));
    if |ps| < 2 then Err(FewRows)
    else if !Gapless(ps) then Err(RowGap)
    else Ok(ps)
  }

  lemma ProjectNested(f: Library, p: Prep, r: Row)
    requires Faithful(f) && Sound(p)
    ensures Nested(Project(f, p, r))
  {
    ForceNested(f, r, p.bounds.forceError, p.bounds.tilt);
    var force := VerticalForce(f, r, p.bounds.forceError, p.bounds.tilt);
    hide VerticalForce;
    MulMonotone(force.lo - p.zero.hi, r.az - p.nominalZero, G);
    MulMonotone(r.az - p.nominalZero, force.hi - p.zero.lo, G);
  }

  /**
   The bounds of a projected row contain every true acceleration that the sensor bounds and the zero interval
   admit.
   */
  lemma ProjectEncloses(f: Library, p: Prep, r: Row, w: Truth, zero: real)
    requires Faithful(f) && Sound(p) && Senses(f, r, p.bounds, w) && p.zero.lo <= zero <= p.zero.hi
    ensures Project(f, p, r).lo <= (Vertical(w) - zero) * 9.80665 <= Project(f, p, r).hi
  {
    RowCovers(f, r, p.bounds, w);
    var force := VerticalForce(f, r, p.bounds.forceError, p.bounds.tilt);
    hide VerticalForce;
    hide Vertical;
    hide Senses;
    hide Faithful;
    MulMonotone(force.lo - p.zero.hi, Vertical(w) - zero, G);
    MulMonotone(Vertical(w) - zero, force.hi - p.zero.lo, G);
  }

  /** The median of the true vertical forces over the calibration is inside the zero interval. */
  lemma ZeroCovers(f: Library, imu: seq<Row>, c0: Interval, c1: Interval, b: Bounds, truths: seq<Truth>,
                   forces: seq<real>)
    requires Faithful(f) && Preparation(f, imu, c0, c1, b).Ok?
    requires |truths| == |forces| == |Between(imu, c0.hi, c1.lo)|
    requires forall i :: 0 <= i < |truths| ==>
               Senses(f, Between(imu, c0.hi, c1.lo)[i], b, truths[i]) && forces[i] == Vertical(truths[i])
    ensures var zero := Preparation(f, imu, c0, c1, b).value.zero;
              forces != [] && zero.lo <= Median.Median(forces) <= zero.hi
  {
    hide *;
    PreparedFrom(f, imu, c0, c1, b);
    ForcesBetween(f, Between(imu, c0.hi, c1.lo), b, truths, forces);
  }

  lemma PreparedFrom(f: Library, imu: seq<Row>, c0: Interval, c1: Interval, b: Bounds)
    requires Preparation(f, imu, c0, c1, b).Ok?
    ensures b.NonNegative() && b.tilt < 90.0 && |Between(imu, c0.hi, c1.lo)| > 0
    ensures var rows, p := Between(imu, c0.hi, c1.lo), Preparation(f, imu, c0, c1, b).value;
            && p.nominalZero == Median.Median(Nominals(rows)) && p.bounds == b
            && p.zero == Interval(Median.Median(Lows(f, rows, b.forceError, b.tilt)),
                                  Median.Median(Highs(f, rows, b.forceError, b.tilt)))
  {
    hide VerticalForce;
    hide Median.Median;
    hide Between;
    hide Lows;
    hide Highs;
  }

  lemma ForcesBetween(f: Library, rows: seq<Row>, b: Bounds, truths: seq<Truth>, forces: seq<real>)
    requires Faithful(f) && b.NonNegative() && b.tilt < 90.0 && |truths| == |forces| == |rows| > 0
    requires forall i :: 0 <= i < |truths| ==> Senses(f, rows[i], b, truths[i]) && forces[i] == Vertical(truths[i])
    ensures Median.Median(Lows(f, rows, b.forceError, b.tilt)) <= Median.Median(forces)
            <= Median.Median(Highs(f, rows, b.forceError, b.tilt))
  {
    hide VerticalForce;
    hide Vertical;
    hide Senses;
    hide Faithful;
    hide Median.Median;
    var los, his := Lows(f, rows, b.forceError, b.tilt), Highs(f, rows, b.forceError, b.tilt);
    forall i | 0 <= i < |rows|
      ensures los[i] <= forces[i] <= his[i]
    {
      RowCovers(f, rows[i], b, truths[i]);
    }
    MedianMonotone(los, forces);
    MedianMonotone(forces, his);
  }

  lemma RowCovers(f: Library, r: Row, b: Bounds, w: Truth)
    requires Faithful(f) && b.NonNegative() && b.tilt < 90.0 && Senses(f, r, b, w)
    ensures VerticalForce(f, r, b.forceError, b.tilt).lo <= Vertical(w) <= VerticalForce(f, r, b.forceError, b.tilt).hi
  {
    ForceEncloses(f, r, b.forceError, b.tilt, w.fx, w.fy, w.fz, w.ct, w.st, w.u, w.v);
  }

  /** The samples are the projections of exactly the rows within the margin of the range. */
  lemma SampledRows(f: Library, imu: seq<Row>, lo: real, hi: real, p: Prep, r: Row)
    requires ProjectedSamples(f, imu, lo, hi, p).Ok? && r in imu && lo - 0.06 <= r.t <= hi + 0.06
    ensures Project(f, p, r) in ProjectedSamples(f, imu, lo, hi, p).value
  {
    var rows := Between(imu, lo - MARGIN, hi + MARGIN);
    var i :| 0 <= i < |rows| && rows[i] == r;
    hide Project;
    assert Projected(f, p, rows)[i] == Project(f, p, r);
  }

  /** Samples are accepted exactly when there are two rows around the range and no two of them are over 50 ms apart. */
  lemma SampledExactly(f: Library, imu: seq<Row>, lo: real, hi: real, p: Prep)
    ensures var rows := Between(imu, lo - 0.06, hi + 0.06);
            ProjectedSamples(f, imu, lo, hi, p).Ok? <==>
              |rows| >= 2 && forall i :: 0 < i < |rows| ==> rows[i].t - rows[i - 1].t <= 0.050000000001
  {
    hide Between;
    hide VerticalForce;
    var rows := Between(imu, lo - MARGIN, hi + MARGIN);
    var ps := Projected(f, p, rows);
    assert forall i :: 0 <= i < |rows| ==> ps[i].t == rows[i].t;
  }

  lemma SamplesNested(f: Library, imu: seq<Row>, lo: real, hi: real, p: Prep)
    requires Faithful(f) && Sound(p) && Increasing(imu) && ProjectedSamples(f, imu, lo, hi, p).Ok?
    ensures AllNested(ProjectedSamples(f, imu, lo, hi, p).value) && Forward(ProjectedSamples(f, imu, lo, hi, p).value)
  {
    var rows := Between(imu, lo - MARGIN, hi + MARGIN);
    BetweenIncreasing(imu, lo - MARGIN, hi + MARGIN);
    forall i | 0 <= i < |rows|
      ensures Nested(Project(f, p, rows[i]))
    {
      ProjectNested(f, p, rows[i]);
    }
    hide Nested;
  }

  // ---------- interpolation ----------

  function Lerp(x: real, y: real, w: real): real {
    x + w * (y - x)
  }

  function Mixed(l: Point, r: Point, t: real): Point
    requires l.t < r.t
  {
    var w := (t - l.t) / (r.t - l.t);
    Point(t, Lerp(l.nominal, r.nominal, w), Lerp(l.lo, r.lo, w), Lerp(l.hi, r.hi, w))
  }

  /** The first bracket decides. */
  function Bracketed(ps: seq<Point>, t: real): Result<Point, Refusal> {
    if |ps| < 2 then Err(NoBracket)
    else if ps[0].t <= t <= ps[1].t then
      Ok(if t == ps[0].t then ps[0] else if t == ps[1].t then ps[1] else Mixed(ps[0], ps[1], t))
    else Bracketed(ps[1..], t)
  }

  function Interpolate(ps: seq<Point>, t: real): Result<Point, Refusal>
    requires ps != []
  {
    if t < ps[0].t || t > ps[|ps| - 1].t then Err(OutsideCoverage) else Bracketed(ps, t)
  }

  lemma LerpMonotone(x: real, y: real, x': real, y': real, w: real)
    requires x <= x' && y <= y' && 0.0 <= w <= 1.0
    ensures Lerp(x, y, w) <= Lerp(x', y', w)
  {
    ProductMonotone(x, x', 1.0 - w);
    ProductMonotone(y, y', w);
    hide Lerp;
    hide Product;
  }

  lemma MixedNested(l: Point, r: Point, t: real)
    requires l.t < t < r.t && Nested(l) && Nested(r)
    ensures Nested(Mixed(l, r, t))
  {
    var w := (t - l.t) / (r.t - l.t);
    hide Lerp;
    LerpMonotone(l.lo, r.lo, l.nominal, r.nominal, w);
    LerpMonotone(l.nominal, r.nominal, l.hi, r.hi, w);
  }

  /** Interpolation keeps the bounds around the nominal value, and inside coverage it always succeeds. */
  lemma {:induction false} BracketedNested(ps: seq<Point>, t: real)
    requires AllNested(ps)
    ensures Bracketed(ps, t).Ok? ==> Bracketed(ps, t).value.t == t && Nested(Bracketed(ps, t).value)
    ensures |ps| >= 2 && ps[0].t <= t <= ps[|ps| - 1].t ==> Bracketed(ps, t).Ok?
  {
    if |ps| >= 2 {
      assert Nested(ps[0]) && Nested(ps[1]);
      if ps[0].t < t < ps[1].t {
        MixedNested(ps[0], ps[1], t);
      }
      hide Mixed;
      hide Nested;
      BracketedNested(ps[1..], t);
    }
  }

  /** The three components at t lie on the straight lines from l to r. */
  ghost predicate Straight(l: Point, r: Point, q: Point) {
    && l.t <= q.t <= r.t
    && (q.nominal - l.nominal) * (r.t - l.t) == (r.nominal - l.nominal) * (q.t - l.t)
    && (q.lo - l.lo) * (r.t - l.t) == (r.lo - l.lo) * (q.t - l.t)
    && (q.hi - l.hi) * (r.t - l.t) == (r.hi - l.hi) * (q.t - l.t)
  }

  lemma LerpIsStraight(x: real, y: real, w: real, p: real, d: real)
    requires d > 0.0 && w == p / d
    ensures (Lerp(x, y, w) - x) * d == (y - x) * p
  {
    assert w * d == p;
    MulEqual(y - x, w * d, p);
  }

  lemma MixedIsStraight(l: Point, r: Point, t: real)
    requires l.t < t < r.t
    ensures Straight(l, r, Mixed(l, r, t))
  {
    hide Lerp;
    var w, p, d := (t - l.t) / (r.t - l.t), t - l.t, r.t - l.t;
    LerpIsStraight(l.nominal, r.nominal, w, p, d);
    LerpIsStraight(l.lo, r.lo, w, p, d);
    LerpIsStraight(l.hi, r.hi, w, p, d);
  }

  lemma EndsAreStraight(l: Point, r: Point)
    requires l.t <= r.t
    ensures Straight(l, r, l) && Straight(l, r, r)
  {
  }

  /** What a bracket gives is on the straight line between two consecutive samples, at the instant asked for. */
  lemma {:induction false} BracketedIsStraight(ps: seq<Point>, t: real)
    requires Bracketed(ps, t).Ok?
    ensures exists i :: 0 < i < |ps| && Straight(ps[i - 1], ps[i], Bracketed(ps, t).value)
    ensures Bracketed(ps, t).value.t == t
  {
    hide Straight;
    if ps[0].t <= t <= ps[1].t {
      if ps[0].t < t < ps[1].t {
        MixedIsStraight(ps[0], ps[1], t);
      } else {
        EndsAreStraight(ps[0], ps[1]);
      }
      assert Straight(ps[0], ps[1], Bracketed(ps, t).value);
    } else {
      BracketedIsStraight(ps[1..], t);
      var tail := ps[1..];
      var i :| 0 < i < |tail| && Straight(tail[i - 1], tail[i], Bracketed(tail, t).value);
      assert Straight(ps[i], ps[i + 1], Bracketed(ps, t).value);
    }
  }

  /** Instants outside the samples are refused; over at least two samples in order no other is. */
  lemma InterpolatesInside(ps: seq<Point>, t: real)
    requires |ps| >= 2 && AllNested(ps)
    ensures Interpolate(ps, t).Ok? <==> ps[0].t <= t <= ps[|ps| - 1].t
    ensures Interpolate(ps, t).Err? ==> Interpolate(ps, t).error == OutsideCoverage
    ensures Interpolate(ps, t).Ok? ==>
              exists i :: 0 < i < |ps| && Straight(ps[i - 1], ps[i], Interpolate(ps, t).value)
  {
    BracketedNested(ps, t);
    if Interpolate(ps, t).Ok? {
      BracketedIsStraight(ps, t);
    }
    hide Straight;
    hide Bracketed;
  }

  // ---------- integration ----------

  function Mean(x: real, y: real): real {
    0.5 * (x + y)
  }

  function Moved(z: real, v: real, a: real, dt: real): real {
    z + v * dt + 0.5 * a * dt * dt
  }

  function Sped(v: real, a: real, dt: real): real {
    v + a * dt
  }

  /** Height and speed after acting on a list of accelerations, given at instants, by their means over each segment. */
  datatype State = State(z: real, v: real)

  function Replay(ts: seq<real>, accelerations: seq<real>, v0: real): State
    requires |ts| == |accelerations| > 0
  {
    var n := |ts| - 1;
    if n == 0 then State(0.0, v0)
    else
      var s := Replay(ts[..n], accelerations[..n], v0);
      var dt, a := ts[n] - ts[n - 1], Mean(accelerations[n - 1], accelerations[n]);
      State(Moved(s.z, s.v, a, dt), Sped(s.v, a, dt))
  }

  function Times(ps: seq<Point>): (r: seq<real>)
    ensures |r| == |ps|
  {
    seq(|ps|, i requires 0 <= i < |ps| => ps[i].t)
  }

  function NominalOf(ps: seq<Point>): (r: seq<real>)
    ensures |r| == |ps|
  {
    seq(|ps|, i requires 0 <= i < |ps| => ps[i].nominal)
  }

  function LowOf(ps: seq<Point>): (r: seq<real>)
    ensures |r| == |ps|
  {
    seq(|ps|, i requires 0 <= i < |ps| => ps[i].lo)
  }

  function HighOf(ps: seq<Point>): (r: seq<real>)
    ensures |r| == |ps|
  {
    seq(|ps|, i requires 0 <= i < |ps| => ps[i].hi)
  }

  predicate Rising(ts: seq<real>) {
    forall i :: 0 < i < |ts| ==> ts[i - 1] <= ts[i]
  }

  lemma MovedMonotone(z: real, v: real, a: real, z': real, v': real, a': real, dt: real)
    requires z <= z' && v <= v' && a <= a' && dt >= 0.0
    ensures Moved(z, v, a, dt) <= Moved(z', v', a', dt) && Sped(v, a, dt) <= Sped(v', a', dt)
  {
  }

  lemma MeanMonotone(x: real, y: real, x': real, y': real)
    requires x <= x' && y <= y'
    ensures Mean(x, y) <= Mean(x', y')
  {
  }

  lemma ReplayStep(ts: seq<real>, a: seq<real>, v: real)
    requires |ts| == |a| > 1
    ensures var n := |ts| - 1;
            var s, dt, mean := Replay(ts[..n], a[..n], v), ts[n] - ts[n - 1], Mean(a[n - 1], a[n]);
            Replay(ts, a, v) == State(Moved(s.z, s.v, mean, dt), Sped(s.v, mean, dt))
  {
    hide Moved;
    hide Sped;
    hide Mean;
  }

  /** Replaying forward in time is monotone in the initial speed and in every acceleration. */
  lemma {:induction false} ReplayMonotone(ts: seq<real>, a: seq<real>, v: real, b: seq<real>, w: real)
    requires |ts| == |a| > 0 && Rising(ts) && Pointwise(a, b) && v <= w
    ensures Replay(ts, a, v).z <= Replay(ts, b, w).z && Replay(ts, a, v).v <= Replay(ts, b, w).v
  {
    var n := |ts| - 1;
    hide Moved;
    hide Sped;
    hide Mean;
    if n > 0 {
      ReplayStep(ts, a, v);
      ReplayStep(ts, b, w);
      MeanMonotone(a[n - 1], a[n], b[n - 1], b[n]);
      var dt := ts[n] - ts[n - 1];
      assert dt >= 0.0 && Rising(ts[..n]) && Pointwise(a[..n], b[..n]);
      hide Rising;
      hide Pointwise;
      hide Replay;
      ReplayMonotone(ts[..n], a[..n], v, b[..n], w);
      var s, t := Replay(ts[..n], a[..n], v), Replay(ts[..n], b[..n], w);
      MovedMonotone(s.z, s.v, Mean(a[n - 1], a[n]), t.z, t.v, Mean(b[n - 1], b[n]), dt);
    }
  }

  /** The motion of a constant acceleration after some time. */
  function Steady(v0: real, a: real, span: real): State {
    State(v0 * span + a * span * span / 2.0, v0 + a * span)
  }

  lemma SteadyStep(v0: real, a: real, x: real, y: real, s: real, d: real, span: real)
    requires x == a && y == a && span == s + d
    ensures State(Moved(Steady(v0, a, s).z, Steady(v0, a, s).v, Mean(x, y), d),
                  Sped(Steady(v0, a, s).v, Mean(x, y), d)) == Steady(v0, a, span)
  {
    assert Mean(x, y) == a;
    SteadySum(v0, a, s, d);
    hide Mean;
    hide Moved;
    hide Sped;
    hide Steady;
  }

  lemma SteadySum(v: real, a: real, s: real, d: real)
    ensures Moved(Steady(v, a, s).z, Steady(v, a, s).v, a, d) == Steady(v, a, s + d).z
    ensures Sped(Steady(v, a, s).v, a, d) == Steady(v, a, s + d).v
  {
  }

  lemma {:induction false} ReplayIsSteady(ts: seq<real>, accelerations: seq<real>, v0: real, a: real)
    requires |ts| == |accelerations| > 0 && forall i :: 0 <= i < |ts| ==> accelerations[i] == a
    ensures Replay(ts, accelerations, v0) == Steady(v0, a, ts[|ts| - 1] - ts[0])
  {
    hide Moved;
    hide Sped;
    hide Mean;
    var n := |ts| - 1;
    if n > 0 {
      hide Steady;
      ReplayIsSteady(ts[..n], accelerations[..n], v0, a);
      ReplayStep(ts, accelerations, v0);
      hide Replay;
      SteadyStep(v0, a, accelerations[n - 1], accelerations[n], ts[n - 1] - ts[0], ts[n] - ts[n - 1], ts[n] - ts[0]);
    }
  }

  /** Under a constant acceleration the replay is the motion of that acceleration, whatever the instants. */
  lemma ReplayOfConstant(ts: seq<real>, accelerations: seq<real>, v0: real, a: real)
    requires |ts| == |accelerations| > 0 && forall i :: 0 <= i < |ts| ==> accelerations[i] == a
    ensures var span := ts[|ts| - 1] - ts[0];
            Replay(ts, accelerations, v0) == State(v0 * span + a * span * span / 2.0, v0 + a * span)
  {
    ReplayIsSteady(ts, accelerations, v0, a);
    hide Replay;
  }

  // ---------- the integration of the predictor ----------

  function Inner(ps: seq<Point>, start: real, end: real): (r: seq<Point>)
    ensures forall i :: 0 <= i < |r| ==> r[i] in ps && start < r[i].t < end
  {
    if ps == [] then []
    else
      var last := ps[|ps| - 1];
      Inner(ps[..|ps| - 1], start, end) + if start < last.t < end then [last] else []
  }

  lemma {:induction false} InnerForward(ps: seq<Point>, start: real, end: real)
    requires Forward(ps)
    ensures Forward(Inner(ps, start, end))
  {
    if ps != [] {
      var front, last := ps[..|ps| - 1], ps[|ps| - 1];
      InnerForward(front, start, end);
      var kept := Inner(front, start, end);
      forall i | 0 <= i < |kept|
        ensures kept[i].t < last.t
      {
        assert kept[i] in front;
      }
    }
  }

  /** No sample strictly between the ends is left out. */
  lemma {:induction false} InnerKeeps(ps: seq<Point>, start: real, end: real, q: Point)
    requires q in ps && start < q.t < end
    ensures q in Inner(ps, start, end)
  {
    var n := |ps| - 1;
    if q != ps[n] {
      assert q in ps[..n];
      InnerKeeps(ps[..n], start, end, q);
    }
  }

  /** The instants that are integrated: both ends, interpolated, and the rows strictly inside. */
  function Nodes(ps: seq<Point>, start: real, end: real): (r: Result<seq<Point>, Refusal>)
    requires ps != []
    ensures r.Ok? ==> r.value != []
  {
    if end <= start then Err(NoDuration)
    else
      var first, last := Interpolate(ps, start), Interpolate(ps, end);
      if first.Err? then Err(first.error)
      else if last.Err? then Err(last.error)
      else Ok([first.value] + Inner(ps, start, end) + [last.value])
  }

  lemma NodesAre(ps: seq<Point>, start: real, end: real)
    requires ps != [] && Nodes(ps, start, end).Ok?
    ensures start < end && Bracketed(ps, start).Ok? && Bracketed(ps, end).Ok?
    ensures Nodes(ps, start, end).value ==
              [Bracketed(ps, start).value] + Inner(ps, start, end) + [Bracketed(ps, end).value]
  {
    hide Bracketed;
    hide Inner;
  }

  lemma Assembled(first: Point, inner: seq<Point>, last: Point)
    requires Nested(first) && Nested(last) && AllNested(inner) && Forward(inner) && first.t < last.t
    requires forall i :: 0 <= i < |inner| ==> first.t < inner[i].t < last.t
    ensures AllNested([first] + inner + [last]) && Rising(Times([first] + inner + [last]))
  {
    hide Nested;
  }

  lemma InnerNested(ps: seq<Point>, start: real, end: real)
    requires AllNested(ps)
    ensures AllNested(Inner(ps, start, end))
  {
    hide Nested;
  }

  lemma NodesNested(ps: seq<Point>, start: real, end: real)
    requires ps != [] && AllNested(ps) && Forward(ps) && Nodes(ps, start, end).Ok?
    ensures var nodes := Nodes(ps, start, end).value;
            AllNested(nodes) && Rising(Times(nodes)) && nodes[0].t == start && nodes[|nodes| - 1].t == end
  {
    hide *;
    NodesAre(ps, start, end);
    BracketedNested(ps, start);
    BracketedNested(ps, end);
    InnerForward(ps, start, end);
    InnerNested(ps, start, end);
    Assembled(Bracketed(ps, start).value, Inner(ps, start, end), Bracketed(ps, end).value);
  }

  datatype Track = Track(nominal: State, low: State, high: State)

  function Tracked(ps: seq<Point>, v0: real): Track
    requires ps != []
  {
    Track(Replay(Times(ps), NominalOf(ps), 0.0), Replay(Times(ps), LowOf(ps), -v0), Replay(Times(ps), HighOf(ps), v0))
  }

  function Advanced(tr: Track, l: Point, r: Point): Track {
    var dt := r.t - l.t;
    var an, alo, ahi := Mean(l.nominal, r.nominal), Mean(l.lo, r.lo), Mean(l.hi, r.hi);
    Track(State(Moved(tr.nominal.z, tr.nominal.v, an, dt), Sped(tr.nominal.v, an, dt)),
          State(Moved(tr.low.z, tr.low.v, alo, dt), Sped(tr.low.v, alo, dt)),
          State(Moved(tr.high.z, tr.high.v, ahi, dt), Sped(tr.high.v, ahi, dt)))
  }

  lemma TrackedStart(ps: seq<Point>, v0: real)
    requires ps != []
    ensures Tracked(ps[..1], v0) == Track(State(0.0, 0.0), State(0.0, -v0), State(0.0, v0))
  {
  }

  lemma TrackedStep(ps: seq<Point>, v0: real)
    requires |ps| >= 2
    ensures Tracked(ps, v0) == Advanced(Tracked(ps[..|ps| - 1], v0), ps[|ps| - 2], ps[|ps| - 1])
  {
    var n := |ps| - 1;
    assert Times(ps)[..n] == Times(ps[..n]);
    assert NominalOf(ps)[..n] == NominalOf(ps[..n]);
    assert LowOf(ps)[..n] == LowOf(ps[..n]);
    assert HighOf(ps)[..n] == HighOf(ps[..n]);
    hide Moved;
    hide Sped;
    hide Mean;
  }

  lemma StepIs(x: real, y: real, z: real, v: real, a: real, dt: real)
    requires a == 0.5 * (x + y)
    ensures Mean(x, y) == a && Moved(z, v, a, dt) == z + v * dt + 0.5 * a * dt * dt && Sped(v, a, dt) == v + a * dt
  {
  }

  method IntegrateProjected(ps: seq<Point>, start: real, end: real, p: Prep)
    returns (r: Result<(real, Interval), Refusal>)
    requires ps != []
    ensures r.Ok? <==> Nodes(ps, start, end).Ok?
    ensures r.Err? ==> r.error == Nodes(ps, start, end).error
    ensures r.Ok? ==>
              var tr := Tracked(Nodes(ps, start, end).value, p.bounds.initialVelocity);
              r.value == (tr.nominal.z, Interval(tr.low.z, tr.high.z))
  {
    hide Interpolate;
    hide Inner;
    if end <= start {
      return Err(NoDuration);
    }
    var first := Interpolate(ps, start);
    if first.Err? {
      return Err(first.error);
    }
    var last := Interpolate(ps, end);
    if last.Err? {
      return Err(last.error);
    }
    var points := [first.value] + Inner(ps, start, end) + [last.value];
    var tr := Integrate(points, p.bounds.initialVelocity);
    return Ok((tr.nominal.z, Interval(tr.low.z, tr.high.z)));
  }

  /** The integration loop over consecutive points. */
  method Integrate(points: seq<Point>, v0: real) returns (tr: Track)
    requires points != []
    ensures tr == Tracked(points, v0)
  {
    hide Moved;
    hide Sped;
    hide Mean;
    hide Tracked;
    var vn, zn := 0.0, 0.0;
    var vlo, vhi, zlo, zhi := -v0, v0, 0.0, 0.0;
    TrackedStart(points, v0);
    for k := 1 to |points|
      invariant Track(State(zn, vn), State(zlo, vlo), State(zhi, vhi)) == Tracked(points[..k], v0)
    {
      var left, right := points[k - 1], points[k];
      var dt := right.t - left.t;
      var an, alo, ahi := 0.5 * (left.nominal + right.nominal), 0.5 * (left.lo + right.lo), 0.5 * (left.hi + right.hi);
      StepIs(left.nominal, right.nominal, zn, vn, an, dt);
      StepIs(left.lo, right.lo, zlo, vlo, alo, dt);
      StepIs(left.hi, right.hi, zhi, vhi, ahi, dt);
      zn := zn + vn * dt + 0.5 * an * dt * dt;
      vn := vn + an * dt;
      zlo, zhi := zlo + vlo * dt + 0.5 * alo * dt * dt, zhi + vhi * dt + 0.5 * ahi * dt * dt;
      vlo, vhi := vlo + alo * dt, vhi + ahi * dt;
      assert points[..k + 1][..k] == points[..k];
      TrackedStep(points[..k + 1], v0);
    }
    assert points[..|points|] == points;
    return Track(State(zn, vn), State(zlo, vlo), State(zhi, vhi));
  }

  /** Accelerations and an initial speed that the declared bounds admit. */
  predicate Admissible(ps: seq<Point>, accelerations: seq<real>, v: real, v0: real) {
    && |accelerations| == |ps| && -v0 <= v <= v0
    && forall i :: 0 <= i < |ps| ==> ps[i].lo <= accelerations[i] <= ps[i].hi
  }

  /**
   The interval is the exact range of displacements over everything admissible, and the nominal replay is
   admissible.
   */
  lemma IntegrationIsExact(ps: seq<Point>, v0: real)
    requires ps != [] && AllNested(ps) && Rising(Times(ps)) && v0 >= 0.0
    ensures forall a, v :: Admissible(ps, a, v, v0) ==>
              Tracked(ps, v0).low.z <= Replay(Times(ps), a, v).z <= Tracked(ps, v0).high.z
    ensures Admissible(ps, NominalOf(ps), 0.0, v0) && Admissible(ps, LowOf(ps), -v0, v0)
            && Admissible(ps, HighOf(ps), v0, v0)
    ensures Tracked(ps, v0).low.z <= Tracked(ps, v0).nominal.z <= Tracked(ps, v0).high.z
  {
    forall i | 0 <= i < |ps|
      ensures ps[i].lo <= ps[i].nominal <= ps[i].hi
    {
      assert Nested(ps[i]);
    }
    forall a, v | Admissible(ps, a, v, v0)
      ensures Tracked(ps, v0).low.z <= Replay(Times(ps), a, v).z <= Tracked(ps, v0).high.z
    {
      ReplayMonotone(Times(ps), LowOf(ps), -v0, a, v);
      ReplayMonotone(Times(ps), a, v, HighOf(ps), v0);
    }
    assert Admissible(ps, NominalOf(ps), 0.0, v0);
  }

  // ---------- one event ----------

  function MaxAcceleration(ps: seq<Point>): (m: real)
    ensures m >= 0.0
    ensures forall i :: 0 <= i < |ps| ==> Abs(ps[i].lo) <= m && Abs(ps[i].hi) <= m
  {
    if ps == [] then 0.0
    else Max(MaxAcceleration(ps[..|ps| - 1]), Max(Abs(ps[|ps| - 1].lo), Abs(ps[|ps| - 1].hi)))
  }

  /** The largest bound is one of the bounds. */
  lemma {:induction false} MaxAttained(ps: seq<Point>)
    requires ps != []
    ensures exists i :: 0 <= i < |ps| && (MaxAcceleration(ps) == Abs(ps[i].lo) || MaxAcceleration(ps) == Abs(ps[i].hi))
  {
    var n := |ps| - 1;
    if n > 0 {
      MaxAttained(ps[..n]);
    }
    assert MaxAcceleration(ps) == Abs(ps[n].lo) || MaxAcceleration(ps) == Abs(ps[n].hi) || n > 0;
  }

  function TimingError(v0: real, acceleration: real, duration: real, shift: real): real {
    v0 * shift + acceleration * duration * shift + 0.5 * acceleration * shift * shift
  }

  function IntersampleError(bound: real, duration: real): real {
    0.5 * bound * duration * duration
  }

  datatype Segment = Segment(nominal: real, interval: Interval)

  /** How far an event may lie from its anchors, both ends together. */
  function Shift(start: Interval, end: Interval, te: real): real {
    (start.hi - start.lo + te) + (end.hi - end.lo + te)
  }

  /** The replay between the anchors, widened by the timing and the intersample terms. */
  function SegmentOf(ps: seq<Point>, start: Interval, end: Interval, p: Prep): Segment
    requires ps != [] && Nodes(ps, start.lo, end.lo).Ok?
  {
    var b, tr := p.bounds, Tracked(Nodes(ps, start.lo, end.lo).value, p.bounds.initialVelocity);
    var duration := end.hi + b.sensorTime - (start.lo - b.sensorTime);
    var margin := TimingError(b.initialVelocity, MaxAcceleration(ps), duration, Shift(start, end, b.sensorTime))
                  + IntersampleError(b.intersample, duration);
    Segment(tr.nominal.z, Interval(tr.low.z - margin, tr.high.z + margin))
  }

  /** A segment that contains its nominal displacement and every admissible one, over the nodes of the anchors. */
  ghost predicate Encloses(seg: Segment, nodes: seq<Point>, v0: real)
    requires nodes != []
  {
    && seg.nominal == Replay(Times(nodes), NominalOf(nodes), 0.0).z
    && seg.interval.lo <= seg.nominal <= seg.interval.hi
    && (forall a, v ::
         Admissible(nodes, a, v, v0) ==> seg.interval.lo <= Replay(Times(nodes), a, v).z <= seg.interval.hi)
  }

  method ImuSegment(f: Library, imu: seq<Row>, start: Interval, end: Interval, p: Prep)
    returns (r: Result<Segment, Refusal>)
    requires Faithful(f) && Sound(p) && Increasing(imu) && start.lo <= start.hi && end.lo <= end.hi
    ensures var samples := ProjectedSamples(f, imu, start.lo - p.bounds.sensorTime, end.hi + p.bounds.sensorTime, p);
            && (r.Ok? <==> samples.Ok? && Nodes(samples.value, start.lo, end.lo).Ok?)
            && (samples.Err? ==> r == Err(samples.error))
            && (samples.Ok? && r.Err? ==> r.error == Nodes(samples.value, start.lo, end.lo).error)
            && (r.Ok? ==> r.value == SegmentOf(samples.value, start, end, p)
                          && Encloses(r.value, Nodes(samples.value, start.lo, end.lo).value, p.bounds.initialVelocity))
  {
    hide *;
    var te, v0 := p.bounds.sensorTime, p.bounds.initialVelocity;
    var outerStart, outerEnd := start.lo - te, end.hi + te;
    var samples := ProjectedSamples(f, imu, outerStart, outerEnd, p);
    if samples.Err? {
      return Err(samples.error);
    }
    SamplesNested(f, imu, outerStart, outerEnd, p);
    SomeSamples(f, imu, outerStart, outerEnd, p);
    var replay := IntegrateProjected(samples.value, start.lo, end.lo, p);
    if replay.Err? {
      return Err(replay.error);
    }
    var acceleration, duration := MaxAcceleration(samples.value), outerEnd - outerStart;
    var shift := (start.hi - start.lo + te) + (end.hi - end.lo + te);
    var timing := v0 * shift + acceleration * duration * shift + 0.5 * acceleration * shift * shift;
    var intersample := 0.5 * p.bounds.intersample * duration * duration;
    TermsAre(v0, acceleration, duration, shift, p.bounds.intersample);
    var (nominal, bounded) := replay.value;
    var seg := Segment(nominal, Interval(bounded.lo - timing - intersample, bounded.hi + timing + intersample));
    SegmentIs(samples.value, start, end, p, seg);
    SegmentEncloses(samples.value, start, end, p);
    return Ok(seg);
  }

  lemma TermsAre(v0: real, a: real, duration: real, shift: real, e: real)
    ensures TimingError(v0, a, duration, shift) == v0 * shift + a * duration * shift + 0.5 * a * shift * shift
    ensures IntersampleError(e, duration) == 0.5 * e * duration * duration
  {
  }

  lemma SegmentIs(ps: seq<Point>, start: Interval, end: Interval, p: Prep, seg: Segment)
    requires ps != [] && Nodes(ps, start.lo, end.lo).Ok?
    requires var b, tr := p.bounds, Tracked(Nodes(ps, start.lo, end.lo).value, p.bounds.initialVelocity);
             var duration := end.hi + b.sensorTime - (start.lo - b.sensorTime);
             var shift := (start.hi - start.lo + b.sensorTime) + (end.hi - end.lo + b.sensorTime);
             var timing := TimingError(b.initialVelocity, MaxAcceleration(ps), duration, shift);
             var intersample := IntersampleError(b.intersample, duration);
             seg == Segment(tr.nominal.z, Interval(tr.low.z - timing - intersample, tr.high.z + timing + intersample))
    ensures seg == SegmentOf(ps, start, end, p)
  {
    hide TimingError;
    hide IntersampleError;
    hide Tracked;
    hide Nodes;
    hide MaxAcceleration;
  }

  /** Whatever is admissible between the anchors is inside. */
  lemma SegmentEncloses(ps: seq<Point>, start: Interval, end: Interval, p: Prep)
    requires Sound(p) && start.lo <= start.hi && end.lo <= end.hi
    requires ps != [] && AllNested(ps) && Forward(ps) && Nodes(ps, start.lo, end.lo).Ok?
    ensures Encloses(SegmentOf(ps, start, end, p), Nodes(ps, start.lo, end.lo).value, p.bounds.initialVelocity)
  {
    hide *;
    var b := p.bounds;
    var duration := end.hi + b.sensorTime - (start.lo - b.sensorTime);
    SoundBounds(p);
    TakesTime(ps, start.lo, end.lo);
    SegmentSpans(ps, start, end, p);
    WidensOnly(b.initialVelocity, MaxAcceleration(ps), duration, Shift(start, end, b.sensorTime), b.intersample);
    WidenedEncloses(ps, start.lo, end.lo, b.initialVelocity, SegmentOf(ps, start, end, p));
  }

  lemma SegmentSpans(ps: seq<Point>, start: Interval, end: Interval, p: Prep)
    requires ps != [] && Nodes(ps, start.lo, end.lo).Ok?
    ensures var b, tr, seg := p.bounds, Tracked(Nodes(ps, start.lo, end.lo).value, p.bounds.initialVelocity),
            SegmentOf(ps, start, end, p);
            var duration := end.hi + b.sensorTime - (start.lo - b.sensorTime);
            var timing := TimingError(b.initialVelocity, MaxAcceleration(ps), duration,
                Shift(start, end, b.sensorTime));
            var margin := timing + IntersampleError(b.intersample, duration);
            seg == Segment(tr.nominal.z, Interval(tr.low.z - margin, tr.high.z + margin))
    ensures Shift(start, end, p.bounds.sensorTime) == start.hi - start.lo + end.hi - end.lo + 2.0 * p.bounds.sensorTime
  {
    hide Nodes;
    hide Tracked;
    hide TimingError;
    hide IntersampleError;
    hide MaxAcceleration;
  }

  lemma SoundBounds(p: Prep)
    requires Sound(p)
    ensures p.bounds.initialVelocity >= 0.0 && p.bounds.sensorTime >= 0.0 && p.bounds.intersample >= 0.0
  {
  }

  lemma TakesTime(ps: seq<Point>, start: real, end: real)
    requires ps != []
    ensures Nodes(ps, start, end).Ok? ==> start < end
  {
  }

  lemma SomeSamples(f: Library, imu: seq<Row>, lo: real, hi: real, p: Prep)
    ensures ProjectedSamples(f, imu, lo, hi, p).Ok? ==> ProjectedSamples(f, imu, lo, hi, p).value != []
  {
  }

  lemma WidenedEncloses(ps: seq<Point>, start: real, end: real, v0: real, seg: Segment)
    requires ps != [] && AllNested(ps) && Forward(ps) && Nodes(ps, start, end).Ok? && v0 >= 0.0
    requires var tr := Tracked(Nodes(ps, start, end).value, v0);
             seg.nominal == tr.nominal.z && seg.interval.lo <= tr.low.z && tr.high.z <= seg.interval.hi
    ensures Encloses(seg, Nodes(ps, start, end).value, v0)
  {
    var nodes := Nodes(ps, start, end).value;
    NodesNested(ps, start, end);
    hide Nodes;
    IntegrationIsExact(nodes, v0);
    hide Replay;
    hide Admissible;
  }

  lemma WidensOnly(v0: real, acceleration: real, duration: real, shift: real, intersample: real)
    requires v0 >= 0.0 && acceleration >= 0.0 && duration >= 0.0 && shift >= 0.0 && intersample >= 0.0
    ensures TimingError(v0, acceleration, duration, shift) >= 0.0 && IntersampleError(intersample, duration) >= 0.0
  {
  }
}
