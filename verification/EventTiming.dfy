/**
 What the timing and intersample terms of an inertial segment are for: the reported interval contains the
 displacement of every motion within the declared bounds, between any admissible start and end of the event.
 */
module EventTiming {
  import opened Wrappers
  import opened Reals
  import opened VerticalReplay

  /** Height and speed over time. */
  datatype Motion = Motion(z: real -> real, v: real -> real)

  /** What a constant acceleration adds to the height in some time. */
  function HalfSquare(a: real, dt: real): real {
    0.5 * a * dt * dt
  }

  /** What a motion of acceleration near `mean`, by at most e, does from t to u, seen from either end. */
  ghost predicate Accelerates(m: Motion, mean: real, e: real, t: real, u: real) {
    && Abs(m.v(u) - m.v(t) - Product(mean, u - t)) <= Product(e, u - t)
    && Abs(m.z(u) - m.z(t) - Product(m.v(t), u - t) - HalfSquare(mean, u - t)) <= HalfSquare(e, u - t)
    && Abs(m.z(u) - m.z(t) - Product(m.v(u), u - t) + HalfSquare(mean, u - t)) <= HalfSquare(e, u - t)
  }

  /** The acceleration is at most a in size from lo to hi. */
  ghost predicate Bounded(m: Motion, a: real, lo: real, hi: real) {
    forall t, u :: lo <= t <= u <= hi ==> Accelerates(m, 0.0, a, t, u)
  }

  /** Between the instants the acceleration stays near the means that the replay uses. */
  ghost predicate Tracks(m: Motion, ts: seq<real>, accelerations: seq<real>, e: real)
    requires |ts| == |accelerations|
  {
    forall k :: 0 < k < |ts| ==> Accelerates(m, (accelerations[k - 1] + accelerations[k]) / 2.0, e, ts[k - 1], ts[k])
  }

  // ---------- products ----------

  lemma ProductSum(a: real, s: real, d: real)
    ensures Product(a, s + d) == Product(a, s) + Product(a, d)
    ensures Product(a, s - d) == Product(a, s) - Product(a, d)
    ensures Product(s + d, a) == Product(s, a) + Product(d, a)
    ensures Product(s - d, a) == Product(s, a) - Product(d, a)
  {
  }

  lemma HalfSquareSum(a: real, s: real, d: real)
    ensures HalfSquare(a, s + d) == HalfSquare(a, s) + Product(Product(a, s), d) + HalfSquare(a, d)
  {
  }

  lemma HalfSquareSign(a: real, d: real)
    ensures HalfSquare(a, -d) == HalfSquare(a, d) && Product(a, -d) == -Product(a, d)
    ensures HalfSquare(0.0, d) == 0.0 == Product(0.0, d)
  {
  }

  lemma HalfSquareMonotone(a: real, d: real, bound: real)
    requires a >= 0.0 && Abs(d) <= bound
    ensures 0.0 <= HalfSquare(a, d) <= HalfSquare(a, bound)
  {
    var b := Abs(d);
    MulMonotone(b, bound, b);
    MulMonotone(b, bound, bound);
    MulMonotone(b * b, bound * bound, 0.5 * a);
    MulNonNegative(b * b, 0.5 * a);
  }

  lemma ProductWithin(x: real, bound: real, d: real)
    requires Abs(x) <= bound && d >= 0.0
    ensures Abs(Product(x, d)) <= Product(bound, d)
  {
    MulMonotone(x, bound, d);
    MulMonotone(-bound, x, d);
  }

  /** Sizes multiply. */
  lemma SizesMultiply(x: real, y: real, a: real, b: real)
    requires Abs(x) <= a && Abs(y) <= b
    ensures Abs(Product(x, y)) <= Product(a, b)
  {
    ProductWithin(x, a, Abs(y));
    ProductMonotone(Abs(y), b, a);
  }

  // ---------- between the anchors ----------

  /** One more segment adds at most what the deviation can do in it. */
  lemma DeviationStep(e: real, span: real, dt: real, dz: real, dv: real, rz: real, rv: real)
    requires Abs(dz) <= HalfSquare(e, span) && Abs(dv) <= Product(e, span)
    requires Abs(rz) <= HalfSquare(e, dt) && Abs(rv) <= Product(e, dt) && dt >= 0.0
    ensures Abs(dv + rv) <= Product(e, span + dt)
    ensures Abs(dz + Product(dv, dt) + rz) <= HalfSquare(e, span + dt)
  {
    ProductWithin(dv, Product(e, span), dt);
    HalfSquareSum(e, span, dt);
    ProductSum(e, span, dt);
    hide Product;
    hide HalfSquare;
  }

  /** The replay that starts with speed w differs from the motion, moved to start with it, by the deviation alone. */
  lemma {:induction false} ReplayNear(m: Motion, ts: seq<real>, a: seq<real>, e: real, w: real)
    requires |ts| == |a| > 0 && Rising(ts) && Tracks(m, ts, a, e)
    ensures var n, shift := |ts| - 1, w - m.v(ts[0]);
            var span := ts[n] - ts[0];
            && Abs(m.v(ts[n]) + shift - Replay(ts, a, w).v) <= Product(e, span)
            && Abs(m.z(ts[n]) - m.z(ts[0]) + Product(shift, span) - Replay(ts, a, w).z) <= HalfSquare(e, span)
  {
    hide Accelerates;
    hide Mean;
    hide Moved;
    hide Sped;
    var n, shift := |ts| - 1, w - m.v(ts[0]);
    if n == 0 {
      HalfSquareSign(e, 0.0);
      HalfSquareSign(shift, 0.0);
      Zero(e);
      Zero(shift);
      hide Product;
      hide HalfSquare;
    } else {
      ReplayNear(m, ts[..n], a[..n], e, w);
      var s, dt, mean := Replay(ts[..n], a[..n], w), ts[n] - ts[n - 1], (a[n - 1] + a[n]) / 2.0;
      MeanIs(a[n - 1], a[n]);
      assert Accelerates(m, mean, e, ts[n - 1], ts[n]);
      hide Product;
      hide HalfSquare;
      SegmentNear(m, mean, e, w, s, ts[0], ts[n - 1], ts[n]);
    }
  }

  lemma MeanIs(x: real, y: real)
    ensures Mean(x, y) == (x + y) / 2.0
  {
  }

  lemma Zero(a: real)
    ensures Product(a, 0.0) == 0.0 == HalfSquare(a, 0.0)
  {
  }

  lemma SegmentNear(m: Motion, mean: real, e: real, w: real, s: State, t0: real, t: real, u: real)
    requires Accelerates(m, mean, e, t, u) && t <= u
    requires var shift := w - m.v(t0);
             Abs(m.v(t) + shift - s.v) <= Product(e, t - t0)
             && Abs(m.z(t) - m.z(t0) + Product(shift, t - t0) - s.z) <= HalfSquare(e, t - t0)
    ensures var shift, dt := w - m.v(t0), u - t;
            && Abs(m.v(u) + shift - Sped(s.v, mean, dt)) <= Product(e, u - t0)
            && Abs(m.z(u) - m.z(t0) + Product(shift, u - t0) - Moved(s.z, s.v, mean, dt)) <= HalfSquare(e, u - t0)
  {
    var shift, dt, span := w - m.v(t0), u - t, t - t0;
    DeviationStep(e, span, dt, m.z(t) - m.z(t0) + Product(shift, span) - s.z, m.v(t) + shift - s.v,
                  m.z(u) - m.z(t) - Product(m.v(t), dt) - HalfSquare(mean, dt), m.v(u) - m.v(t) - Product(mean, dt));
    ProductSum(shift, span, dt);
    ProductSum(dt, m.v(t) + shift, s.v);
    ProductSum(dt, m.v(t), shift);
    MovedIs(s.z, s.v, mean, dt);
    hide Product;
    hide HalfSquare;
    hide Moved;
    hide Sped;
    assert span + dt == u - t0;
  }

  lemma MovedIs(z: real, v: real, a: real, dt: real)
    ensures Moved(z, v, a, dt) == z + Product(v, dt) + HalfSquare(a, dt) && Sped(v, a, dt) == v + Product(a, dt)
  {
  }

  // ---------- from the anchors to the event ----------

  /** What the motion does over a stretch, either way along it. */
  lemma Stretch(m: Motion, a: real, lo: real, hi: real, t: real, u: real)
    requires Bounded(m, a, lo, hi) && lo <= t <= hi && lo <= u <= hi && a >= 0.0
    ensures Abs(m.v(u) - m.v(t)) <= Product(a, Abs(u - t))
    ensures Abs(m.z(u) - m.z(t) - Product(m.v(t), u - t)) <= HalfSquare(a, u - t)
  {
    HalfSquareSign(0.0, u - t);
    HalfSquareSign(a, u - t);
    HalfSquareSign(m.v(t), u - t);
    Null(u - t);
    Null(t - u);
    hide Product;
    hide HalfSquare;
    assert if t <= u then Accelerates(m, 0.0, a, t, u) else Accelerates(m, 0.0, a, u, t);
  }

  lemma Null(d: real)
    ensures Product(0.0, d) == 0.0 == HalfSquare(0.0, d)
  {
  }

  /** How a displacement depends on its ends, in terms of the speed at the start. */
  lemma EndsIdentity(zs: real, ze: real, zs0: real, ze0: real, vs: real, ve0: real, vs0: real, s: real, e: real,
                     s0: real, e0: real)
    ensures ze - zs - (ze0 - zs0 + Product(vs - vs0, e0 - s0)) ==
              Product(vs, (e - e0) - (s - s0)) + Product(ve0 - vs, e - e0) - Product(vs - vs0, e0 - s0)
              + (ze - ze0 - Product(ve0, e - e0)) + (zs0 - zs - Product(vs, s0 - s))
  {
  }

  /** The sensitivity envelope covers the terms of the identity. */
  lemma EnvelopeCovers(v0: real, a: real, duration: real, p: real, q: real, x1: real, x2: real, x3: real, x4: real,
                       x5: real)
    requires a >= 0.0 && p >= 0.0 && q >= 0.0
    requires Abs(x1) <= Product(v0, p + q) && Abs(x2) <= Product(Product(a, duration), q)
             && Abs(x3) <= Product(Product(a, p), duration)
    requires Abs(x4) <= HalfSquare(a, q) && Abs(x5) <= HalfSquare(a, p)
    ensures Abs(x1 + x2 - x3 + x4 + x5) <= TimingError(v0, a, duration, p + q)
  {
    EnvelopeIs(v0, a, duration, p, q);
    ProductNonNegative(a, p);
    ProductNonNegative(Product(a, p), q);
    hide Product;
    hide HalfSquare;
    hide TimingError;
  }

  lemma EnvelopeIs(v0: real, a: real, duration: real, p: real, q: real)
    ensures TimingError(v0, a, duration, p + q) ==
              Product(v0, p + q) + Product(Product(a, duration), q) + Product(Product(a, p), duration)
              + HalfSquare(a, p) + Product(Product(a, p), q) + HalfSquare(a, q)
  {
  }

  /**
   A displacement between other ends differs from the one between the anchors, taken with the speed at the true
   start, by at most the timing term.
   */
  lemma TimingCovers(m: Motion, v0: real, a: real, lo: real, hi: real, s0: real, e0: real, s: real, e: real, p: real,
                     q: real)
    requires Bounded(m, a, lo, hi) && a >= 0.0 && Abs(m.v(s)) <= v0
    requires lo <= s0 <= e0 <= hi && lo <= s <= e <= hi && Abs(s - s0) <= p && Abs(e - e0) <= q
    ensures Abs(m.z(e) - m.z(s) - (m.z(e0) - m.z(s0) + Product(m.v(s) - m.v(s0), e0 - s0))) <= TimingError(v0, a,
            hi - lo, p + q)
  {
    var duration := hi - lo;
    Stretch(m, a, lo, hi, e0, e);
    Stretch(m, a, lo, hi, s, s0);
    Stretch(m, a, lo, hi, s, e0);
    hide Bounded;
    EndsIdentity(m.z(s), m.z(e), m.z(s0), m.z(e0), m.v(s), m.v(e0), m.v(s0), s, e, s0, e0);
    SizesMultiply(m.v(s), (e - e0) - (s - s0), v0, p + q);
    ProductMonotone(Abs(e0 - s), duration, a);
    SizesMultiply(m.v(e0) - m.v(s), e - e0, Product(a, duration), q);
    ProductMonotone(Abs(s0 - s), p, a);
    SizesMultiply(m.v(s) - m.v(s0), e0 - s0, Product(a, p), duration);
    HalfSquareMonotone(a, e - e0, q);
    HalfSquareMonotone(a, s0 - s, p);
    hide Product;
    hide HalfSquare;
    EnvelopeCovers(v0, a, duration, p, q, Product(m.v(s), (e - e0) - (s - s0)), Product(m.v(e0) - m.v(s), e - e0),
                   Product(m.v(s) - m.v(s0), e0 - s0), m.z(e) - m.z(e0) - Product(m.v(e0), e - e0),
                   m.z(s0) - m.z(s) - Product(m.v(s), s0 - s));
  }

  /** An event of a motion that starts at s and ends at e, within the declared timing, speed and smoothness. */
  ghost predicate Event(m: Motion, ts: seq<real>, accelerations: seq<real>, a: real, start: Interval, end: Interval,
                        b: Bounds, s: real, e: real)
    requires |ts| == |accelerations|
  {
    && start.lo - b.sensorTime <= s <= start.hi + b.sensorTime
    && end.lo - b.sensorTime <= e <= end.hi + b.sensorTime && s <= e
    && Abs(m.v(s)) <= b.initialVelocity
    && Tracks(m, ts, accelerations, b.intersample)
    && Bounded(m, a, start.lo - b.sensorTime, end.hi + b.sensorTime)
  }

  /** Such an event whose accelerations lie within the projected bounds. */
  ghost predicate Declared(m: Motion, samples: seq<Point>, nodes: seq<Point>, accelerations: seq<real>, a: real,
                           start: Interval, end: Interval, p: Prep, s: real, e: real) {
    && Admissible(nodes, accelerations, m.v(s), p.bounds.initialVelocity)
    && Event(m, Times(nodes), accelerations, a, start, end, p.bounds, s, e)
    && a <= MaxAcceleration(samples)
  }

  lemma BoundedFurther(m: Motion, a: real, most: real, lo: real, hi: real)
    requires Bounded(m, a, lo, hi) && a <= most
    ensures Bounded(m, most, lo, hi)
  {
    forall t, u | lo <= t <= u <= hi
      ensures Accelerates(m, 0.0, most, t, u)
    {
      assert Accelerates(m, 0.0, a, t, u);
      ProductMonotone(a, most, u - t);
      HalfSquareGrows(a, most, u - t);
      hide Product;
      hide HalfSquare;
    }
  }

  lemma HalfSquareGrows(a: real, b: real, d: real)
    requires a <= b
    ensures HalfSquare(a, d) <= HalfSquare(b, d)
  {
    Square(d);
    MulMonotone(a, b, d * d);
  }

  /** Between the anchors, from the speed at the true start. */
  lemma AnchorsCover(nodes: seq<Point>, v0: real, m: Motion, accelerations: seq<real>, e: real, w: real, duration: real)
    requires nodes != [] && AllNested(nodes) && Rising(Times(nodes)) && v0 >= 0.0 && e >= 0.0
    requires Admissible(nodes, accelerations, w, v0) && Tracks(m, Times(nodes), accelerations, e)
    requires 0.0 <= nodes[|nodes| - 1].t - nodes[0].t <= duration
    ensures var t, u, tr := nodes[0].t, nodes[|nodes| - 1].t, Tracked(nodes, v0);
            tr.low.z - HalfSquare(e, duration) <= m.z(u) - m.z(t) + Product(w - m.v(t), u - t) <= tr.high.z
                + HalfSquare(e, duration)
  {
    hide Replay;
    hide Tracked;
    hide Tracks;
    hide HalfSquare;
    hide Product;
    hide AllNested;
    IntegrationIsExact(nodes, v0);
    ReplayNear(m, Times(nodes), accelerations, e, w);
    HalfSquareMonotone(e, nodes[|nodes| - 1].t - nodes[0].t, duration);
  }

  /** The reported interval contains the displacement of every such event, wherever it starts and ends. */
  lemma SegmentCoversMotion(samples: seq<Point>, start: Interval, end: Interval, p: Prep,
                            m: Motion, accelerations: seq<real>, a: real, s: real, e: real)
    requires Sound(p) && start.lo <= start.hi && end.lo <= end.hi
    requires samples != [] && AllNested(samples) && Forward(samples) && Nodes(samples, start.lo, end.lo).Ok?
    requires Declared(m, samples, Nodes(samples, start.lo, end.lo).value, accelerations, a, start, end, p, s, e)
    ensures var seg := SegmentOf(samples, start, end, p); seg.interval.lo <= m.z(e) - m.z(s) <= seg.interval.hi
  {
    hide AllNested;
    hide Forward;
    hide Replay;
    hide Tracked;
    hide Tracks;
    hide Bounded;
    hide HalfSquare;
    hide TimingError;
    hide IntersampleError;
    hide Product;
    hide Nodes;
    hide Sound;
    hide MaxAcceleration;
    var b, nodes := p.bounds, Nodes(samples, start.lo, end.lo).value;
    var te, most := b.sensorTime, MaxAcceleration(samples);
    BoundedFurther(m, a, most, start.lo - te, end.hi + te);
    var lo, hi := start.lo - te, end.hi + te;
    SoundBounds(p);
    TakesTime(samples, start.lo, end.lo);
    NodesNested(samples, start.lo, end.lo);
    AnchorsCover(nodes, b.initialVelocity, m, accelerations, b.intersample, m.v(s), hi - lo);
    TimingCovers(m, b.initialVelocity, most, lo, hi, start.lo, end.lo, s, e, start.hi - start.lo + te, end.hi - end.lo
        + te);
    IntersampleIs(b.intersample, hi - lo);
    hide Admissible;
  }

  lemma IntersampleIs(e: real, duration: real)
    ensures IntersampleError(e, duration) == HalfSquare(e, duration)
  {
  }

  // ---------- in terms of the true forces ----------

  /** The true forces behind the rows and the true zero level are within the declared bounds. */
  ghost predicate Sensed(f: Library, p: Prep, rows: seq<Row>, truths: seq<Truth>, zero: real) {
    && |truths| == |rows| && p.zero.lo <= zero <= p.zero.hi
    && forall i :: 0 <= i < |rows| ==> Senses(f, rows[i], p.bounds, truths[i])
  }

  /** The declared bounds admit an acceleration of at least size a behind a row. */
  ghost predicate Admits(f: Library, p: Prep, r: Row, a: real) {
    exists w, zero ::
      Senses(f, r, p.bounds, w) && p.zero.lo <= zero <= p.zero.hi && a <= Size(w, zero)
  }

  function Size(w: Truth, zero: real): real {
    Abs((Vertical(w) - zero) * 9.80665)
  }

  ghost predicate Reaches(f: Library, p: Prep, rows: seq<Row>, a: real) {
    exists i :: 0 <= i < |rows| && Admits(f, p, rows[i], a)
  }

  /** A true acceleration in place of the nominal one. */
  function TruePoint(q: Point, w: Truth, zero: real): Point {
    Point(q.t, (Vertical(w) - zero) * 9.80665, q.lo, q.hi)
  }

  function TruePoints(ps: seq<Point>, truths: seq<Truth>, zero: real): (r: seq<Point>)
    requires |ps| == |truths|
    ensures |r| == |ps| && forall i :: 0 <= i < |r| ==> r[i] == TruePoint(ps[i], truths[i], zero)
  {
    seq(|ps|, i requires 0 <= i < |ps| => TruePoint(ps[i], truths[i], zero))
  }

  /** The same instants and bounds, whatever the values between them. */
  ghost predicate SameBounds(ps: seq<Point>, qs: seq<Point>) {
    |ps| == |qs| && forall i :: 0 <= i < |ps| ==> Alike(ps[i], qs[i])
  }

  predicate Alike(p: Point, q: Point) {
    p.t == q.t && p.lo == q.lo && p.hi == q.hi
  }

  lemma {:induction false} BracketedAlike(ps: seq<Point>, qs: seq<Point>, t: real)
    requires SameBounds(ps, qs)
    ensures Bracketed(ps, t).Ok? <==> Bracketed(qs, t).Ok?
    ensures Bracketed(ps, t).Ok? ==> Alike(Bracketed(ps, t).value, Bracketed(qs, t).value)
  {
    if |ps| >= 2 {
      assert Alike(ps[0], qs[0]) && Alike(ps[1], qs[1]);
      BracketedAlike(ps[1..], qs[1..], t);
      hide Lerp;
    }
  }

  lemma {:induction false} InnerAlike(ps: seq<Point>, qs: seq<Point>, start: real, end: real)
    requires SameBounds(ps, qs)
    ensures SameBounds(Inner(ps, start, end), Inner(qs, start, end))
  {
    if ps != [] {
      var n := |ps| - 1;
      assert Alike(ps[n], qs[n]);
      InnerAlike(ps[..n], qs[..n], start, end);
    }
  }

  lemma AlikeJoin(p: Point, ps: seq<Point>, p': Point, q: Point, qs: seq<Point>, q': Point)
    requires Alike(p, q) && Alike(p', q') && SameBounds(ps, qs)
    ensures SameBounds([p] + ps + [p'], [q] + qs + [q'])
  {
    hide Alike;
  }

  lemma CoverageAlike(ps: seq<Point>, qs: seq<Point>)
    requires SameBounds(ps, qs) && ps != []
    ensures qs != [] && ps[0].t == qs[0].t && ps[|ps| - 1].t == qs[|qs| - 1].t
  {
    assert Alike(ps[0], qs[0]) && Alike(ps[|ps| - 1], qs[|ps| - 1]);
  }

  lemma NodesFrom(ps: seq<Point>, start: real, end: real)
    requires ps != [] && Bracketed(ps, start).Ok? && Bracketed(ps, end).Ok?
    requires ps[0].t <= start < end <= ps[|ps| - 1].t
    ensures Nodes(ps, start, end).Ok?
  {
    hide Bracketed;
    hide Inner;
    assert Interpolate(ps, start).Ok? by {
      assert start <= ps[|ps| - 1].t;
    }
    assert Interpolate(ps, end).Ok?;
  }

  lemma NodesWithin(ps: seq<Point>, start: real, end: real)
    requires ps != [] && Nodes(ps, start, end).Ok?
    ensures ps[0].t <= start < end <= ps[|ps| - 1].t
  {
    hide Bracketed;
    hide Inner;
  }

  lemma NodesAlike(ps: seq<Point>, qs: seq<Point>, start: real, end: real)
    requires SameBounds(ps, qs) && ps != [] && Nodes(ps, start, end).Ok?
    ensures qs != [] && Nodes(qs, start, end).Ok?
    ensures SameBounds(Nodes(ps, start, end).value, Nodes(qs, start, end).value)
  {
    hide *;
    CoverageAlike(ps, qs);
    NodesWithin(ps, start, end);
    NodesAre(ps, start, end);
    BracketedAlike(ps, qs, start);
    BracketedAlike(ps, qs, end);
    NodesFrom(qs, start, end);
    NodesAre(qs, start, end);
    InnerAlike(ps, qs, start, end);
    AlikeJoin(Bracketed(ps, start).value, Inner(ps, start, end), Bracketed(ps, end).value,
              Bracketed(qs, start).value, Inner(qs, start, end), Bracketed(qs, end).value);
  }

  /** Values between the bounds are admissible for the points that share the bounds. */
  lemma NestedIsAdmissible(ps: seq<Point>, qs: seq<Point>, v: real, v0: real)
    requires SameBounds(ps, qs) && AllNested(qs) && -v0 <= v <= v0
    ensures Admissible(ps, NominalOf(qs), v, v0) && Times(ps) == Times(qs)
  {
    forall i | 0 <= i < |ps|
      ensures ps[i].lo <= NominalOf(qs)[i] <= ps[i].hi && ps[i].t == qs[i].t
    {
      assert Alike(ps[i], qs[i]) && Nested(qs[i]);
    }
  }

  /** The true accelerations lie between the bounds of the samples. */
  lemma TruthsNested(f: Library, p: Prep, rows: seq<Row>, truths: seq<Truth>, zero: real)
    requires Faithful(f) && Sound(p) && Sensed(f, p, rows, truths, zero)
    ensures var ps := Projected(f, p, rows);
            AllNested(TruePoints(ps, truths, zero)) && SameBounds(ps, TruePoints(ps, truths, zero))
  {
    hide Faithful;
    hide Sound;
    hide Senses;
    hide Vertical;
    hide Project;
    forall i | 0 <= i < |rows|
      ensures Nested(TruePoint(Project(f, p, rows[i]), truths[i], zero))
    {
      ProjectEncloses(f, p, rows[i], truths[i], zero);
    }
  }

  lemma ReachIsCovered(f: Library, p: Prep, rows: seq<Row>, a: real)
    requires Faithful(f) && Sound(p) && Reaches(f, p, rows, a)
    ensures a <= MaxAcceleration(Projected(f, p, rows))
  {
    hide Faithful;
    hide Sound;
    hide Senses;
    hide Vertical;
    hide Project;
    hide MaxAcceleration;
    var i :| 0 <= i < |rows| && Admits(f, p, rows[i], a);
    var w, zero :| Senses(f, rows[i], p.bounds, w) && p.zero.lo <= zero <= p.zero.hi && a <= Size(w, zero);
    ProjectEncloses(f, p, rows[i], w, zero);
    assert Projected(f, p, rows)[i] == Project(f, p, rows[i]);
  }

  /** The rows that a segment is replayed from. */
  function Sampled(imu: seq<Row>, start: Interval, end: Interval, b: Bounds): seq<Row> {
    Between(imu, start.lo - b.sensorTime - MARGIN, end.hi + b.sensorTime + MARGIN)
  }

  /**
   The reported interval contains the displacement of every event of every motion, when the true forces and the true
   zero are within the declared bounds, the true accelerations at the rows, taken linearly between them, explain the
   motion up to the intersample error, and no acceleration is beyond what the bounds admit at a row.
   */
  lemma SegmentCoversEvent(f: Library, imu: seq<Row>, start: Interval, end: Interval, p: Prep, truths: seq<Truth>,
                           zero: real, m: Motion, a: real, s: real, e: real)
    requires Faithful(f) && Sound(p) && Increasing(imu) && start.lo <= start.hi && end.lo <= end.hi
    requires ProjectedSamples(f, imu, start.lo - p.bounds.sensorTime, end.hi + p.bounds.sensorTime, p).Ok?
    requires var rows := Sampled(imu, start, end, p.bounds);
             var samples := Projected(f, p, rows);
             && samples != [] && Nodes(samples, start.lo, end.lo).Ok?
             && Sensed(f, p, rows, truths, zero) && Reaches(f, p, rows, a)
             && var nodes := Nodes(TruePoints(samples, truths, zero), start.lo, end.lo);
                nodes.Ok? && Event(m, Times(nodes.value), NominalOf(nodes.value), a, start, end, p.bounds, s, e)
    ensures var samples :=
              ProjectedSamples(f, imu, start.lo - p.bounds.sensorTime, end.hi + p.bounds.sensorTime, p).value;
            samples != [] && Nodes(samples, start.lo, end.lo).Ok?
            && var seg := SegmentOf(samples, start, end, p); seg.interval.lo <= m.z(e) - m.z(s) <= seg.interval.hi
  {
    hide *;
    var rows := Sampled(imu, start, end, p.bounds);
    var samples := Projected(f, p, rows);
    SamplesAre(f, imu, start, end, p);
    SamplesNested(f, imu, start.lo - p.bounds.sensorTime, end.hi + p.bounds.sensorTime, p);
    SensedCount(f, p, rows, truths, zero);
    TruthsNested(f, p, rows, truths, zero);
    var points := TruePoints(samples, truths, zero);
    NodesAlike(samples, points, start.lo, end.lo);
    AlikeForward(samples, points);
    NodesNested(points, start.lo, end.lo);
    ReachIsCovered(f, p, rows, a);
    var nodes := Nodes(points, start.lo, end.lo).value;
    DeclaredBy(m, samples, Nodes(samples, start.lo, end.lo).value, nodes, a, start, end, p, s, e);
    SegmentCoversMotion(samples, start, end, p, m, NominalOf(nodes), a, s, e);
  }

  lemma SamplesAre(f: Library, imu: seq<Row>, start: Interval, end: Interval, p: Prep)
    requires ProjectedSamples(f, imu, start.lo - p.bounds.sensorTime, end.hi + p.bounds.sensorTime, p).Ok?
    ensures ProjectedSamples(f, imu, start.lo - p.bounds.sensorTime, end.hi + p.bounds.sensorTime, p).value
            == Projected(f, p, Sampled(imu, start, end, p.bounds))
  {
  }

  lemma SensedCount(f: Library, p: Prep, rows: seq<Row>, truths: seq<Truth>, zero: real)
    requires Sensed(f, p, rows, truths, zero)
    ensures |truths| == |rows|
  {
  }

  lemma AlikeForward(ps: seq<Point>, qs: seq<Point>)
    requires SameBounds(ps, qs) && Forward(ps) && ps != []
    ensures Forward(qs) && qs != []
  {
    forall i, j | 0 <= i < j < |qs|
      ensures qs[i].t < qs[j].t
    {
      assert Alike(ps[i], qs[i]) && Alike(ps[j], qs[j]);
    }
  }

  lemma DeclaredBy(m: Motion, samples: seq<Point>, nodes: seq<Point>, points: seq<Point>, a: real, start: Interval,
                   end: Interval, p: Prep, s: real, e: real)
    requires SameBounds(nodes, points) && AllNested(points) && a <= MaxAcceleration(samples)
    requires Event(m, Times(points), NominalOf(points), a, start, end, p.bounds, s, e)
    ensures Declared(m, samples, nodes, NominalOf(points), a, start, end, p, s, e)
  {
    NestedIsAdmissible(nodes, points, m.v(s), p.bounds.initialVelocity);
    hide AllNested;
    hide SameBounds;
    hide MaxAcceleration;
    hide Tracks;
    hide Bounded;
  }
}
