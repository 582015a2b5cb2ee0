/**
 The conditional error budgets: the forward vertical envelope and the terminal witness
 that replays its own worst case.
 */
module Budget {
  import opened Wrappers
  import opened Reals
  import opened ErrorModel

  const G := 9.81
  const PI := 3.141592653589793

  datatype BudgetError = InvalidBounds | UnsupportedCadence | PartialIntervals | TiltDomain

  /** The two library functions used for tilts, as far as the budgets depend on them. */
  ghost predicate Trigonometric(sin: real -> real, cos: real -> real) {
    && sin(0.0) == 0.0 && cos(0.0) == 1.0
    && (forall x :: 0.0 <= x <= PI / 2.0 ==> 0.0 <= sin(x) <= 1.0 && 0.0 <= cos(x) <= 1.0)
  }

  function Grown(rate: real, elapsed: real): real {
    rate * elapsed
  }

  // ---------- projection ----------

  function ProjectionBound(base: real, horizontal: real, vertical: real, s: real, c: real): real {
    base + horizontal * s + (G + vertical) * (1.0 - c)
  }

  /** Projecting a force on a vertical tilted by at most the declared angle errs by at most the bound at that angle. */
  lemma ProjectionErrorBounded(base: real, horizontal: real, vertical: real, s: real, c: real, sMax: real, cMin: real,
                               fz: real, fh: real, sensor: real)
    requires 0.0 <= s <= sMax && cMin <= c <= 1.0
    requires Abs(fz) <= G + vertical && Abs(fh) <= horizontal && Abs(sensor) <= base
    ensures Abs(fz * c + fh * s + sensor - fz) <= ProjectionBound(base, horizontal, vertical, sMax, cMin)
  {
    ProjectionErrorAt(base, horizontal, vertical, s, c, fz, fh, sensor);
    BoundGrows(base, horizontal, vertical, s, c, sMax, cMin);
    hide ProjectionBound;
  }

  lemma ProjectionErrorAt(base: real, horizontal: real, vertical: real, s: real, c: real, fz: real, fh: real,
                          sensor: real)
    requires 0.0 <= s && c <= 1.0
    requires Abs(fz) <= G + vertical && Abs(fh) <= horizontal && Abs(sensor) <= base
    ensures Abs(fz * c + fh * s + sensor - fz) <= ProjectionBound(base, horizontal, vertical, s, c)
  {
    ProductsWithin(s, fh, horizontal);
    ProductsWithin(1.0 - c, fz, G + vertical);
    ProjectionGap(fz, fh, s, c, sensor);
    BoundIs(base, horizontal, vertical, s, c);
    hide Product;
    hide ProjectionBound;
  }

  lemma BoundGrows(base: real, horizontal: real, vertical: real, s: real, c: real, sMax: real, cMin: real)
    requires horizontal >= 0.0 && G + vertical >= 0.0 && s <= sMax && cMin <= c
    ensures ProjectionBound(base, horizontal, vertical, s, c) <= ProjectionBound(base, horizontal, vertical, sMax, cMin)
  {
    ProductMonotone(s, sMax, horizontal);
    ProductMonotone(1.0 - c, 1.0 - cMin, G + vertical);
    BoundIs(base, horizontal, vertical, s, c);
    BoundIs(base, horizontal, vertical, sMax, cMin);
    hide Product;
    hide ProjectionBound;
  }

  lemma BoundIs(base: real, horizontal: real, vertical: real, s: real, c: real)
    ensures ProjectionBound(base, horizontal, vertical, s, c) ==
            base + Product(s, horizontal) + Product(1.0 - c, G + vertical)
  {
  }

  lemma ProductsWithin(k: real, x: real, bound: real)
    requires k >= 0.0 && Abs(x) <= bound
    ensures Abs(Product(k, x)) <= Product(k, bound)
  {
    ProductMonotone(x, bound, k);
    ProductMonotone(-bound, x, k);
    assert Product(k, -bound) == -Product(k, bound);
  }

  lemma ProjectionGap(fz: real, fh: real, s: real, c: real, sensor: real)
    ensures fz * c + fh * s + sensor - fz == Product(s, fh) - Product(1.0 - c, fz) + sensor
  {
  }

  // ---------- inputs ----------

  datatype EnvelopeInput = EnvelopeInput(
    duration: real, dt: real, omega: real, z0: real, v0: real, acceleration: real, pressure: real,
    tilt0: real, gyroRate: real, horizontal: real, vertical: real, stride: int)
  {
    function Cadence(): Cadence {
      ErrorModel.Cadence(dt, omega, stride)
    }

    predicate BoundsNonNegative() {
      && duration >= 0.0 && dt >= 0.0 && omega >= 0.0 && z0 >= 0.0 && v0 >= 0.0 && acceleration >= 0.0
      && pressure >= 0.0 && tilt0 >= 0.0 && gyroRate >= 0.0 && horizontal >= 0.0 && vertical >= 0.0
    }

    predicate CadenceSupported() {
      && stride >= 1 && duration > 0.0 && dt > 0.0
      && dt * stride as real <= 0.1 && omega * dt * stride as real < 0.1
    }

    function Steps(): int
      requires dt > 0.0
    {
      RoundHalfEven(duration / dt)
    }

    predicate WholeIntervals()
      requires dt > 0.0
    {
      Abs(Steps() as real * dt - duration) <= 0.0000000001
    }

    /** The tilt bound at the end of a step. */
    function Tilt(step: int): real {
      tilt0 + Grown(gyroRate, step as real * dt)
    }
  }

  /** Rounding to the nearest integer, ties to even. */
  function RoundHalfEven(x: real): (n: int)
    ensures Abs(x - n as real) <= 0.5
    ensures Abs(x - n as real) == 0.5 ==> n % 2 == 0
    ensures x >= 0.0 ==> n >= 0
  {
    var f := x.Floor;
    var rest := x - f as real;
    if rest < 0.5 then f
    else if rest > 0.5 then f + 1
    else if f % 2 == 0 then f
    else f + 1
  }

  function StepBound(p: EnvelopeInput, sin: real -> real, cos: real -> real, step: int): real {
    ProjectionBound(p.acceleration, p.horizontal, p.vertical, sin(p.Tilt(step)), cos(p.Tilt(step)))
  }

  function EnvelopeBounds(p: EnvelopeInput, sin: real -> real, cos: real -> real, n: nat): Bounds {
    Bounds(p.z0, p.v0, seq(n, i => StepBound(p, sin, cos, i + 1)), p.pressure)
  }

  predicate TiltsSupported(p: EnvelopeInput, n: nat) {
    forall step :: 1 <= step <= n ==> p.Tilt(step) <= PI / 2.0
  }

  lemma BoundsAreNonNegative(p: EnvelopeInput, sin: real -> real, cos: real -> real, n: nat)
    requires Trigonometric(sin, cos) && p.BoundsNonNegative() && TiltsSupported(p, n)
    ensures EnvelopeBounds(p, sin, cos, n).NonNegative()
  {
    var b := EnvelopeBounds(p, sin, cos, n);
    hide StepBound;
    forall i | 0 <= i < n
      ensures b.acceleration[i] >= 0.0
    {
      TiltNonNegative(p, i + 1);
      StepBoundNonNegative(p, sin, cos, i + 1);
    }
  }

  lemma TiltNonNegative(p: EnvelopeInput, step: nat)
    requires p.BoundsNonNegative()
    ensures p.Tilt(step) >= 0.0
  {
  }

  lemma StepBoundNonNegative(p: EnvelopeInput, sin: real -> real, cos: real -> real, step: nat)
    requires Trigonometric(sin, cos) && p.BoundsNonNegative() && 0.0 <= p.Tilt(step) <= PI / 2.0
    ensures StepBound(p, sin, cos, step) >= 0.0
  {
    var t := p.Tilt(step);
    hide EnvelopeInput.Tilt;
    ProjectionNonNegative(p.acceleration, p.horizontal, p.vertical, sin(t), cos(t));
    hide ProjectionBound;
  }

  lemma ProjectionNonNegative(base: real, horizontal: real, vertical: real, s: real, c: real)
    requires base >= 0.0 && horizontal >= 0.0 && vertical >= 0.0 && s >= 0.0 && c <= 1.0
    ensures ProjectionBound(base, horizontal, vertical, s, c) >= 0.0
  {
  }

  /** On the supported domain a smaller tilt has a smaller sine and a larger cosine. */
  ghost predicate Monotone(sin: real -> real, cos: real -> real) {
    forall x, y :: 0.0 <= x <= y <= PI / 2.0 ==> sin(x) <= sin(y) && cos(y) <= cos(x)
  }

  /** The bound of a step, taken at the tilt of its end, covers every tilt up to it. */
  lemma StepBoundCovers(p: EnvelopeInput, sin: real -> real, cos: real -> real, step: nat, tilt: real,
                        fz: real, fh: real, sensor: real)
    requires Trigonometric(sin, cos) && Monotone(sin, cos) && 0.0 <= tilt <= p.Tilt(step) <= PI / 2.0
    requires Abs(fz) <= G + p.vertical && Abs(fh) <= p.horizontal && Abs(sensor) <= p.acceleration
    ensures Abs(fz * cos(tilt) + fh * sin(tilt) + sensor - fz) <= StepBound(p, sin, cos, step)
  {
    hide EnvelopeInput.Tilt;
    hide ProjectionBound;
    ProjectionErrorBounded(p.acceleration, p.horizontal, p.vertical, sin(tilt), cos(tilt),
                           sin(p.Tilt(step)), cos(p.Tilt(step)), fz, fh, sensor);
  }

  // ---------- the forward envelope ----------

  datatype Envelope = Envelope(terminalZ: real, terminalV: real, maxSampledZ: real, maxContinuousZ: real,
      peakTime: real)

  /** The triangle bound used inside the interval that ends with step k. */
  function IntervalBound(m: Cadence, b: Bounds, k: nat): real
    requires m.stride >= 1 && 0 < k <= |b.acceleration|
  {
    Coast(Vec(Width(Columns(m, b, k - 1), HEIGHT), Width(Columns(m, b, k - 1), SPEED)), b.acceleration[k - 1], m.dt)
  }

  ghost predicate SampledUpTo(m: Cadence, b: Bounds, n: nat, maximum: real, peak: real)
    requires m.stride >= 1 && n <= |b.acceleration|
  {
    && (forall k :: 0 <= k <= n ==> Width(Columns(m, b, k), HEIGHT) <= maximum)
    && (forall k :: 0 < k <= n ==> Width(PredictedColumns(m, b, k), HEIGHT) <= maximum)
    && ((peak == 0.0 && maximum == Width(Columns(m, b, 0), HEIGHT)) || exists k: nat ::
         0 < k <= n && FirstPeak(m, b, k, maximum, peak))
  }

  /** Step k is the first to show the maximum. */
  ghost predicate FirstPeak(m: Cadence, b: Bounds, k: nat, maximum: real, peak: real)
    requires m.stride >= 1 && 0 < k <= |b.acceleration|
  {
    && PeaksAt(m, b, k, maximum, peak)
    && (forall j :: 0 <= j < k ==> Width(Columns(m, b, j), HEIGHT) < maximum)
    && (forall j :: 0 < j < k ==> Width(PredictedColumns(m, b, j), HEIGHT) < maximum)
  }

  /** The maximum was seen at step k, before or after its correction. */
  ghost predicate PeaksAt(m: Cadence, b: Bounds, k: nat, maximum: real, peak: real)
    requires m.stride >= 1 && 0 < k <= |b.acceleration|
  {
    peak == Instant(m, k) && (maximum == Width(PredictedColumns(m, b, k), HEIGHT)
        || maximum == Width(Columns(m, b, k), HEIGHT))
  }

  function Instant(m: Cadence, k: int): real {
    k as real * m.dt
  }

  ghost predicate ContinuousUpTo(m: Cadence, b: Bounds, n: nat, maximum: real)
    requires m.stride >= 1 && n <= |b.acceleration|
  {
    && (forall k :: 0 <= k <= n ==> Width(Columns(m, b, k), HEIGHT) <= maximum)
    && (forall k :: 0 < k <= n ==> IntervalBound(m, b, k) <= maximum)
    && (maximum == Width(Columns(m, b, 0), HEIGHT) || exists k: nat :: 0 < k <= n && ShowsBound(m, b, k, maximum))
  }

  ghost predicate ShowsBound(m: Cadence, b: Bounds, k: nat, maximum: real)
    requires m.stride >= 1 && 0 < k <= |b.acceleration|
  {
    maximum == IntervalBound(m, b, k) || maximum == Width(Columns(m, b, k), HEIGHT)
  }

  ghost predicate Describes(e: Envelope, m: Cadence, b: Bounds)
    requires m.stride >= 1
  {
    var n := |b.acceleration|;
    && e.terminalZ == Width(Columns(m, b, n), HEIGHT)
    && e.terminalV == Width(Columns(m, b, n), SPEED)
    && SampledUpTo(m, b, n, e.maxSampledZ, e.peakTime)
    && ContinuousUpTo(m, b, n, e.maxContinuousZ)
  }

  lemma StartWidth(m: Cadence, b: Bounds)
    requires m.stride >= 1 && b.z0 >= 0.0
    ensures Width(Columns(m, b, 0), HEIGHT) == b.z0
  {
    var cs := Columns(m, b, 0);
    assert cs[1..] == [Vec(0.0, b.v0)];
    assert Width([Vec(0.0, b.v0)], HEIGHT) == 0.0 + Width([], HEIGHT);
  }

  /** Keep the larger value and the time it was first seen. */
  function Track(best: (real, real), value: real, time: real): (real, real) {
    if value > best.0 then (value, time) else best
  }

  lemma SampledStep(m: Cadence, b: Bounds, k: nat, best: (real, real))
    requires m.stride >= 1 && 0 < k <= |b.acceleration| && SampledUpTo(m, b, k - 1, best.0, best.1)
    ensures var pre := Track(best, Width(PredictedColumns(m, b, k), HEIGHT), Instant(m, k));
            var post := Track(pre, Width(Columns(m, b, k), HEIGHT), Instant(m, k));
            SampledUpTo(m, b, k, post.0, post.1)
  {
    hide Instant;
    hide Width;
    hide Columns;
    hide PredictedColumns;
    var pre := Track(best, Width(PredictedColumns(m, b, k), HEIGHT), Instant(m, k));
    var post := Track(pre, Width(Columns(m, b, k), HEIGHT), Instant(m, k));
    if post != best {
      assert FirstPeak(m, b, k, post.0, post.1);
    }
  }

  lemma ContinuousStep(m: Cadence, b: Bounds, k: nat, maximum: real)
    requires m.stride >= 1 && 0 < k <= |b.acceleration| && ContinuousUpTo(m, b, k - 1, maximum)
    ensures ContinuousUpTo(m, b, k, Max(Max(maximum, IntervalBound(m, b, k)), Width(Columns(m, b, k), HEIGHT)))
  {
    hide Width;
    hide Columns;
    hide IntervalBound;
    var next := Max(Max(maximum, IntervalBound(m, b, k)), Width(Columns(m, b, k), HEIGHT));
    if next != maximum {
      assert ShowsBound(m, b, k, next);
    }
  }

  method VerticalEnvelope(p: EnvelopeInput, sin: real -> real, cos: real -> real)
    returns (r: Result<Envelope, BudgetError>)
    ensures r == Err(InvalidBounds) <==> !p.BoundsNonNegative()
    ensures r == Err(UnsupportedCadence) <==> p.BoundsNonNegative() && !p.CadenceSupported()
    ensures r.Ok? <==>
              p.BoundsNonNegative() && p.CadenceSupported() && p.WholeIntervals() && TiltsSupported(p, p.Steps())
    ensures r.Ok? ==> Describes(r.value, p.Cadence(), EnvelopeBounds(p, sin, cos, p.Steps()))
  {
    if !p.BoundsNonNegative() {
      return Err(InvalidBounds);
    }
    if !p.CadenceSupported() {
      return Err(UnsupportedCadence);
    }
    if !p.WholeIntervals() {
      return Err(PartialIntervals);
    }
    r := Propagate(p, sin, cos, p.Steps());
  }

  /** The propagation loop, one prediction interval at a time. */
  method Propagate(p: EnvelopeInput, sin: real -> real, cos: real -> real, steps: nat)
    returns (r: Result<Envelope, BudgetError>)
    requires p.stride >= 1 && p.z0 >= 0.0
    ensures r.Ok? <==> TiltsSupported(p, steps)
    ensures r.Err? ==> r.error == TiltDomain
    ensures r.Ok? ==> Describes(r.value, p.Cadence(), EnvelopeBounds(p, sin, cos, steps))
  {
    hide EnvelopeInput.Tilt;
    hide ErrorModel.Cadence.Push;
    hide ErrorModel.Cadence.Gain;
    hide MapPredict;
    hide MapCorrect;
    hide Width;
    hide Scaled;
    hide Coast;
    hide SampledUpTo;
    hide ContinuousUpTo;
    hide ProjectionBound;
    hide Track;
    hide Instant;
    hide Columns;
    hide PredictedColumns;
    var m, dt := p.Cadence(), p.dt;
    var columns, best, maxContinuousZ := [Vec(p.z0, 0.0), Vec(0.0, p.v0)], (p.z0, 0.0), p.z0;
    ghost var b := EnvelopeBounds(p, sin, cos, steps);
    StartUpTo(m, b);
    StartColumns(m, b);
    for step := 1 to steps + 1
      invariant columns == Columns(m, b, step - 1)
      invariant TiltsSupported(p, step - 1)
      invariant SampledUpTo(m, b, step - 1, best.0, best.1)
      invariant ContinuousUpTo(m, b, step - 1, maxContinuousZ)
    {
      var tilt := p.Tilt(step);
      if tilt > PI / 2.0 {
        return Err(TiltDomain);
      }
      SampledStep(m, b, step, best);
      ContinuousStep(m, b, step, maxContinuousZ);
      var ba := ProjectionBound(p.acceleration, p.horizontal, p.vertical, sin(tilt), cos(tilt));
      assert ba == b.acceleration[step - 1];
      var ez, ev := Width(columns, HEIGHT), Width(columns, SPEED);
      maxContinuousZ := Max(maxContinuousZ, Coast(Vec(ez, ev), ba, dt));
      var before := columns;
      columns := MapPredict(m, columns) + [Scaled(m.Push(), ba)];
      PredictedColumnsAre(m, b, step, before, columns);
      best := Track(best, Width(columns, HEIGHT), Instant(m, step));
      columns := CorrectedColumns(m, columns, p.pressure, step);
      ColumnsAre(m, b, step, columns);
      var post := Width(columns, HEIGHT);
      best := Track(best, post, Instant(m, step));
      maxContinuousZ := Max(maxContinuousZ, post);
    }
    return Ok(Envelope(Width(columns, HEIGHT), Width(columns, SPEED), best.0, maxContinuousZ, best.1));
  }

  /** The barometer update of the columns, on the steps that have one. */
  method CorrectedColumns(m: Cadence, columns: seq<Vec>, pressure: real, step: int) returns (r: seq<Vec>)
    requires m.stride >= 1
    ensures r == if m.Corrects(step) then MapCorrect(m, columns) + [Scaled(m.Gain(), pressure)] else columns
  {
    r := columns;
    if step % m.stride == 0 && m.omega != 0.0 {
      r := MapCorrect(m, columns) + [Scaled(m.Gain(), pressure)];
    }
  }

  lemma PredictedColumnsAre(m: Cadence, b: Bounds, step: nat, before: seq<Vec>, columns: seq<Vec>)
    requires m.stride >= 1 && 0 < step <= |b.acceleration| && before == Columns(m, b, step - 1)
    requires columns == MapPredict(m, before) + [Scaled(m.Push(), b.acceleration[step - 1])]
    ensures columns == PredictedColumns(m, b, step)
    ensures IntervalBound(m, b, step) == Coast(Vec(Width(before, HEIGHT), Width(before, SPEED)),
            b.acceleration[step - 1], m.dt)
  {
    hide Width;
    hide Coast;
    hide Columns;
  }

  lemma ColumnsAre(m: Cadence, b: Bounds, step: nat, columns: seq<Vec>)
    requires m.stride >= 1 && 0 < step <= |b.acceleration|
    requires columns == if m.Corrects(step) then MapCorrect(m, PredictedColumns(m, b, step))
             + [Scaled(m.Gain(), b.pressure)]
                        else PredictedColumns(m, b, step)
    ensures columns == Columns(m, b, step)
  {
    hide PredictedColumns;
  }

  lemma StartColumns(m: Cadence, b: Bounds)
    requires m.stride >= 1
    ensures Columns(m, b, 0) == [Vec(b.z0, 0.0), Vec(0.0, b.v0)]
  {
  }

  lemma StartUpTo(m: Cadence, b: Bounds)
    requires m.stride >= 1 && b.z0 >= 0.0
    ensures SampledUpTo(m, b, 0, b.z0, 0.0)
    ensures ContinuousUpTo(m, b, 0, b.z0)
  {
    StartWidth(m, b);
  }

  /** Inside every interval and after every correction, no admissible history leaves the continuous enclosure. */
  lemma EnclosureHolds(e: Envelope, m: Cadence, b: Bounds, h: History, k: nat, tau: real)
    requires m.stride >= 1 && b.NonNegative() && Describes(e, m, b) && h.Within(b)
    requires 0 < k <= |b.acceleration| && 0.0 <= tau <= m.dt
    ensures Abs(Inside(m, h, k, tau)) <= e.maxContinuousZ
    ensures Abs(State(m, h, k).z) <= e.maxContinuousZ
    ensures Abs(State(m, h, 0).z) <= e.maxContinuousZ
  {
    hide Columns;
    hide State;
    hide Width;
    hide SampledUpTo;
    hide IntervalBound;
    hide Inside;
    StateEnclosed(e, m, b, h, k);
    StateEnclosed(e, m, b, h, 0);
    AxisWidths(m, b, h, k - 1);
    InsideInterval(m, b, h, k, tau);
    assert IntervalBound(m, b, k) <= e.maxContinuousZ;
  }

  lemma StateEnclosed(e: Envelope, m: Cadence, b: Bounds, h: History, k: nat)
    requires m.stride >= 1 && b.NonNegative() && Describes(e, m, b) && h.Within(b) && k <= |b.acceleration|
    ensures Abs(State(m, h, k).z) <= e.maxContinuousZ
  {
    hide Columns;
    hide State;
    hide Width;
    hide SampledUpTo;
    hide IntervalBound;
    AxisWidths(m, b, h, k);
  }

  /** The column widths along the two axes bound height and speed. */
  lemma AxisWidths(m: Cadence, b: Bounds, h: History, k: nat)
    requires m.stride >= 1 && b.NonNegative() && h.Within(b) && k <= |b.acceleration|
    ensures Abs(State(m, h, k).z) <= Width(Columns(m, b, k), HEIGHT)
    ensures Abs(State(m, h, k).v) <= Width(Columns(m, b, k), SPEED)
  {
    hide Columns;
    hide PredictedColumns;
    hide State;
    hide Predicted;
    hide Width;
    BothSigns(m, b, h, k, HEIGHT);
    BothSigns(m, b, h, k, SPEED);
    hide Vec.Dot;
  }

  /**
   What an accepted input promises: the reported enclosure holds for every error history within its declared
   bounds.
   */
  lemma EnvelopeEncloses(p: EnvelopeInput, sin: real -> real, cos: real -> real, e: Envelope, h: History, k: nat,
                         tau: real)
    requires Trigonometric(sin, cos) && p.BoundsNonNegative() && p.CadenceSupported() && TiltsSupported(p, p.Steps())
    requires Describes(e, p.Cadence(), EnvelopeBounds(p, sin, cos, p.Steps()))
             && h.Within(EnvelopeBounds(p, sin, cos, p.Steps()))
    requires 0 < k <= p.Steps() && 0.0 <= tau <= p.dt
    ensures Abs(Inside(p.Cadence(), h, k, tau)) <= e.maxContinuousZ
            && Abs(State(p.Cadence(), h, k).z) <= e.maxContinuousZ
  {
    BoundsAreNonNegative(p, sin, cos, p.Steps());
    EnclosureHolds(e, p.Cadence(), EnvelopeBounds(p, sin, cos, p.Steps()), h, k, tau);
    hide *;
  }

  lemma InsideInterval(m: Cadence, b: Bounds, h: History, k: nat, tau: real)
    requires m.stride >= 1 && 0 < k <= |b.acceleration| && h.Within(b) && 0.0 <= tau <= m.dt
    requires Abs(State(m, h, k - 1).z) <= Width(Columns(m, b, k - 1), HEIGHT)
    requires Abs(State(m, h, k - 1).v) <= Width(Columns(m, b, k - 1), SPEED)
    ensures Abs(Inside(m, h, k, tau)) <= IntervalBound(m, b, k)
  {
    hide Columns;
    hide State;
    hide Width;
    hide Coast;
    InsideTriangle(State(m, h, k - 1), h.acceleration[k - 1], tau, Width(Columns(m, b, k - 1), HEIGHT),
                   Width(Columns(m, b, k - 1), SPEED), b.acceleration[k - 1], m.dt);
  }

  lemma InsideTriangle(s: Vec, a: real, tau: real, ez: real, ev: real, ba: real, dt: real)
    requires Abs(s.z) <= ez && Abs(s.v) <= ev && Abs(a) <= ba && 0.0 <= tau <= dt
    ensures Abs(Coast(s, a, tau)) <= Coast(Vec(ez, ev), ba, dt)
  {
    hide Abs;
    DriftWithin(s.v, tau, ev, dt);
    HalfSquareWithin(a, tau, ba, dt);
    SumWithin(s.z, tau * s.v, 0.5 * a * tau * tau, ez, dt * ev, 0.5 * ba * dt * dt);
    assert Coast(s, a, tau) == s.z + tau * s.v + 0.5 * a * tau * tau;
  }

  lemma DriftWithin(v: real, tau: real, ev: real, dt: real)
    requires Abs(v) <= ev && 0.0 <= tau <= dt
    ensures Abs(tau * v) <= dt * ev
  {
  }

  lemma HalfSquareWithin(a: real, tau: real, ba: real, dt: real)
    requires Abs(a) <= ba && 0.0 <= tau <= dt
    ensures Abs(0.5 * a * tau * tau) <= 0.5 * ba * dt * dt
  {
  }

  lemma SumWithin(x: real, y: real, z: real, ex: real, ey: real, ez: real)
    requires Abs(x) <= ex && Abs(y) <= ey && Abs(z) <= ez
    ensures Abs(x + y + z) <= ex + ey + ez
  {
  }

  // ---------- exactness of the sampled maximum ----------

  function Idle(n: nat): (cs: seq<Choice>)
    ensures |cs| == n
  {
    seq(n, _ => Choice(0.0, 0.0))
  }

  lemma ChoicesWithin(m: Cadence, b: Bounds, start: Vec, cs: seq<Choice>)
    requires b.NonNegative() && |cs| <= |b.acceleration|
    requires Abs(start.z) <= b.z0 && Abs(start.v) <= b.v0
    requires forall i ::
               0 <= i < |cs| ==> Abs(cs[i].acceleration) <= b.acceleration[i] && Abs(cs[i].pressure) <= b.pressure
    ensures AsHistory(start, cs + Idle(|b.acceleration| - |cs|)).Within(b)
  {
  }

  lemma CornerWithin(b: Bounds, y: Vec)
    requires b.NonNegative()
    ensures Abs(Corner(b, y).z) <= b.z0 && Abs(Corner(b, y).v) <= b.v0
  {
  }

  ghost predicate ReachedBy(m: Cadence, b: Bounds, h: History, k: nat, y: Vec, width: real)
    requires m.stride >= 1 && k <= |b.acceleration|
  {
    h.Within(b) && y.Dot(State(m, h, k)) == width
  }

  ghost predicate PredictedBy(m: Cadence, b: Bounds, h: History, k: nat, y: Vec, width: real)
    requires m.stride >= 1 && 0 < k <= |b.acceleration|
  {
    h.Within(b) && y.Dot(Predicted(m, h, k)) == width
  }

  /** At every step some admissible history reaches the column width. */
  lemma WidthAttainedAt(m: Cadence, b: Bounds, k: nat, y: Vec)
    requires m.stride >= 1 && b.NonNegative() && k <= |b.acceleration|
    ensures exists h :: ReachedBy(m, b, h, k, y, Width(Columns(m, b, k), y))
  {
    hide Support;
    hide Columns;
    hide Vec.Dot;
    hide Replay;
    hide State;
    var start, cs := Corner(b, Root(m, k, y)), Adversary(m, b, k, y);
    var all := cs + Idle(|b.acceleration| - k);
    var h := AsHistory(start, all);
    WidthIsSupport(m, b, k, y);
    AdversaryAttains(m, b, k, y);
    AdversaryWithin(m, b, k, y);
    CornerWithin(b, Root(m, k, y));
    ChoicesWithin(m, b, start, cs);
    ReplayIsState(m, start, all, k);
    assert all[..k] == cs;
    assert ReachedBy(m, b, h, k, y, Width(Columns(m, b, k), y));
  }

  /** Just before every correction some admissible history reaches the predicted width. */
  lemma PredictedWidthAttainedAt(m: Cadence, b: Bounds, k: nat, y: Vec)
    requires m.stride >= 1 && b.NonNegative() && 0 < k <= |b.acceleration|
    ensures exists h :: PredictedBy(m, b, h, k, y, Width(PredictedColumns(m, b, k), y))
  {
    hide Support;
    hide Columns;
    hide Vec.Dot;
    hide Replay;
    hide State;
    hide ErrorModel.Cadence.Push;
    var inner := m.PredictT(y);
    var start := Corner(b, Root(m, k - 1, inner));
    var cs := Adversary(m, b, k - 1, inner) + [Choice(Signed(b.acceleration[k - 1], y.Dot(m.Push())), 0.0)];
    var all := cs + Idle(|b.acceleration| - k);
    var h := AsHistory(start, all);
    PredictedWidth(m, b, k, y);
    AdversaryAttains(m, b, k - 1, inner);
    AdversaryWithin(m, b, k - 1, inner);
    CornerWithin(b, Root(m, k - 1, inner));
    ChoicesWithin(m, b, start, cs);
    ReplayIsState(m, start, all, k - 1);
    assert all[..k - 1] == Adversary(m, b, k - 1, inner);
    AttainPrediction(m, b, k, y, State(m, h, k - 1));
    assert PredictedBy(m, b, h, k, y, Width(PredictedColumns(m, b, k), y));
  }

  lemma SampledMaximumBounds(e: Envelope, m: Cadence, b: Bounds, h: History, k: nat)
    requires m.stride >= 1 && b.NonNegative() && Describes(e, m, b) && h.Within(b) && k <= |b.acceleration|
    ensures Abs(State(m, h, k).z) <= e.maxSampledZ
    ensures k > 0 ==> Abs(Predicted(m, h, k).z) <= e.maxSampledZ
  {
    hide Columns;
    hide PredictedColumns;
    hide State;
    hide Predicted;
    hide Width;
    hide ContinuousUpTo;
    BothSigns(m, b, h, k, HEIGHT);
  }

  ghost predicate Reaches(m: Cadence, b: Bounds, h: History, k: nat, value: real)
    requires m.stride >= 1 && k <= |b.acceleration|
  {
    h.Within(b) && (State(m, h, k).z == value || (k > 0 && Predicted(m, h, k).z == value))
  }

  lemma PeakStep(e: Envelope, m: Cadence, b: Bounds) returns (k: nat)
    requires m.stride >= 1 && Describes(e, m, b)
    ensures k <= |b.acceleration| && e.peakTime == k as real * m.dt
    ensures e.maxSampledZ == Width(Columns(m, b, k), HEIGHT)
            || (k > 0 && e.maxSampledZ == Width(PredictedColumns(m, b, k), HEIGHT))
  {
    hide Columns;
    hide PredictedColumns;
    hide Width;
    hide ContinuousUpTo;
    if e.peakTime == 0.0 && e.maxSampledZ == Width(Columns(m, b, 0), HEIGHT) {
      k := 0;
    } else {
      k :| 0 < k <= |b.acceleration| && FirstPeak(m, b, k, e.maxSampledZ, e.peakTime);
    }
  }

  lemma ReachedAt(m: Cadence, b: Bounds, k: nat, maximum: real)
    requires m.stride >= 1 && b.NonNegative() && k <= |b.acceleration|
    requires maximum == Width(Columns(m, b, k), HEIGHT)
             || (k > 0 && maximum == Width(PredictedColumns(m, b, k), HEIGHT))
    ensures exists h :: Reaches(m, b, h, k, maximum)
  {
    hide Columns;
    hide PredictedColumns;
    hide State;
    hide Predicted;
    hide Width;
    if maximum == Width(Columns(m, b, k), HEIGHT) {
      WidthAttainedAt(m, b, k, HEIGHT);
      var h :| ReachedBy(m, b, h, k, HEIGHT, maximum);
      assert Reaches(m, b, h, k, maximum);
    } else {
      PredictedWidthAttainedAt(m, b, k, HEIGHT);
      var h :| PredictedBy(m, b, h, k, HEIGHT, maximum);
      assert Reaches(m, b, h, k, maximum);
    }
  }

  lemma PeakIsReached(e: Envelope, m: Cadence, b: Bounds)
    requires m.stride >= 1 && b.NonNegative() && Describes(e, m, b)
    ensures exists h, k ::
              0 <= k <= |b.acceleration| && Reaches(m, b, h, k, e.maxSampledZ) && e.peakTime == k as real * m.dt
  {
    var k := PeakStep(e, m, b);
    hide *;
    ReachedAt(m, b, k, e.maxSampledZ);
    var h :| Reaches(m, b, h, k, e.maxSampledZ);
  }

  /** The reported sampled maximum is exact: never exceeded at a sample, and reached at the reported time. */
  lemma SampledMaximumIsExact(e: Envelope, m: Cadence, b: Bounds)
    requires m.stride >= 1 && b.NonNegative() && Describes(e, m, b)
    ensures forall h: History, k :: h.Within(b) && 0 <= k <= |b.acceleration| ==> Abs(State(m, h, k).z) <= e.maxSampledZ
    ensures forall h: History, k ::
              h.Within(b) && 0 < k <= |b.acceleration| ==> Abs(Predicted(m, h, k).z) <= e.maxSampledZ
    ensures exists h, k ::
              0 <= k <= |b.acceleration| && Reaches(m, b, h, k, e.maxSampledZ) && e.peakTime == k as real * m.dt
  {
    hide State;
    hide Predicted;
    hide Describes;
    forall h: History, k | h.Within(b) && 0 <= k <= |b.acceleration|
      ensures Abs(State(m, h, k).z) <= e.maxSampledZ
      ensures k > 0 ==> Abs(Predicted(m, h, k).z) <= e.maxSampledZ
    {
      SampledMaximumBounds(e, m, b, h, k);
    }
    PeakIsReached(e, m, b);
  }

  /** Nothing but an initial height error, up to the first correction. */
  ghost predicate HeightOnly(m: Cadence, b: Bounds) {
    && m.stride >= 1 && m.omega != 0.0 && |b.acceleration| == m.stride
    && b.z0 >= 0.0 && b.v0 == b.pressure == 0.0 && forall i :: 0 <= i < |b.acceleration| ==> b.acceleration[i] == 0.0
  }

  /** What the first correction leaves of a height error: T is the time between corrections. */
  function Left(m: Cadence): real {
    1.0 - 2.0 * m.omega * (m.dt * m.stride as real)
  }

  lemma OneHistory(m: Cadence, b: Bounds, h: History)
    requires HeightOnly(m, b) && h.Within(b)
    ensures HEIGHT.Dot(State(m, h, |b.acceleration|)) == Product(Left(m), h.start.z) && Abs(h.start.z) <= b.z0
  {
    HeightIs(State(m, h, |b.acceleration|));
    CoastsToCorrection(m, h, |b.acceleration|);
  }

  /** One correction of an initial height error alone leaves 1 - 2 omega T of it. */
  lemma OneCorrection(e: Envelope, m: Cadence, b: Bounds)
    requires m.stride >= 1 && HeightOnly(m, b) && Describes(e, m, b)
    requires 2.0 * m.omega * (m.dt * m.stride as real) <= 1.0
    ensures e.terminalZ == (1.0 - 2.0 * m.omega * (m.dt * m.stride as real)) * b.z0
  {
    hide *;
    TerminalIs(e, m, b);
    LeftIs(m, b.z0);
    LeftWidth(m, b);
  }

  lemma LeftIs(m: Cadence, z: real)
    ensures 2.0 * m.omega * (m.dt * m.stride as real) <= 1.0 ==> Left(m) >= 0.0
    ensures Product(Left(m), z) == (1.0 - 2.0 * m.omega * (m.dt * m.stride as real)) * z
  {
  }

  lemma TerminalIs(e: Envelope, m: Cadence, b: Bounds)
    requires m.stride >= 1 && Describes(e, m, b)
    ensures e.terminalZ == Width(Columns(m, b, |b.acceleration|), HEIGHT)
  {
  }

  lemma LeftWidth(m: Cadence, b: Bounds)
    requires HeightOnly(m, b) && Left(m) >= 0.0
    ensures Width(Columns(m, b, |b.acceleration|), HEIGHT) == Product(Left(m), b.z0)
  {
    var n, worst := |b.acceleration|, History(Vec(b.z0, 0.0), b.acceleration, b.acceleration);
    assert worst.Within(b) && b.NonNegative();
    hide State;
    hide Columns;
    hide Width;
    hide Vec.Dot;
    hide Left;
    hide Product;
    WidthIsExact(m, b, HEIGHT);
    var h: History :| h.Within(b) && HEIGHT.Dot(State(m, h, n)) == Width(Columns(m, b, n), HEIGHT);
    OneHistory(m, b, h);
    OneHistory(m, b, worst);
    hide HeightOnly;
    assert Abs(HEIGHT.Dot(State(m, worst, n))) <= Width(Columns(m, b, n), HEIGHT);
    Squeezed(Width(Columns(m, b, n), HEIGHT), Left(m), h.start.z, b.z0);
  }

  lemma HeightIs(s: Vec)
    ensures HEIGHT.Dot(s) == s.z && SPEED.Dot(s) == s.v
  {
  }

  lemma Squeezed(w: real, k: real, x: real, bound: real)
    requires k >= 0.0 && Abs(x) <= bound && w == Product(k, x) && Abs(Product(k, bound)) <= w
    ensures w == Product(k, bound)
  {
    ProductMonotone(x, bound, k);
    hide Product;
  }

  // ---------- the terminal witness ----------

  datatype WitnessInput = WitnessInput(
    duration: real, dt: real, omega: real, z0: real, v0: real, acceleration: real, pressure: real, stride: int)
  {
    function Cadence(): Cadence {
      ErrorModel.Cadence(dt, omega, stride)
    }

    predicate BoundsNonNegative() {
      && duration >= 0.0 && dt >= 0.0 && omega >= 0.0 && z0 >= 0.0 && v0 >= 0.0 && acceleration >= 0.0
         && pressure >= 0.0
    }

    predicate CadenceSupported() {
      && stride >= 1 && duration > 0.0 && 0.0 < dt <= 0.1
      && dt * stride as real <= 0.1 && omega * dt * stride as real < 0.1
    }

    function Steps(): int
      requires dt > 0.0
    {
      RoundHalfEven(duration / dt)
    }

    /** Closeness with the library's default relative tolerance next to the explicit absolute one. */
    predicate WholeIntervals()
      requires dt > 0.0
    {
      var length := Steps() as real * dt;
      && Steps() >= 1
      && Abs(length - duration) <= Max(0.000000001 * Max(Abs(length), Abs(duration)), 0.0000000001)
    }

    function Bounds(n: nat): Bounds {
      ErrorModel.Bounds(z0, v0, seq(n, _ => acceleration), pressure)
    }
  }

  datatype Witness = Witness(support: real, replayTerminalZ: real)

  method TerminalWitness(p: WitnessInput) returns (r: Result<Witness, BudgetError>)
    ensures r == Err(InvalidBounds) <==> !p.BoundsNonNegative()
    ensures r.Ok? <==> p.BoundsNonNegative() && p.CadenceSupported() && p.WholeIntervals()
    ensures r.Ok? ==> r.value.support == r.value.replayTerminalZ
                      == Width(Columns(p.Cadence(), p.Bounds(p.Steps()), p.Steps()), HEIGHT)
  {
    if !p.BoundsNonNegative() {
      return Err(InvalidBounds);
    }
    if !p.CadenceSupported() {
      return Err(UnsupportedCadence);
    }
    if !p.WholeIntervals() {
      return Err(PartialIntervals);
    }
    ghost var m, b := p.Cadence(), p.Bounds(p.Steps());
    ghost var plan := Adversary(m, b, p.Steps(), HEIGHT);
    var adj, choices, support := Backward(p, p.Steps());
    assert Reversed(choices) == plan;
    var z := Forward(p, p.Steps(), adj, choices);
    support := support + Reach(adj.z, p.z0) + Reach(adj.v, p.v0);
    AdversaryAttains(m, b, p.Steps(), HEIGHT);
    WidthIsSupport(m, b, p.Steps(), HEIGHT);
    return Ok(Witness(support, z));
  }

  /** The first loop: walk back from the terminal height, collecting the worst choices. */
  method Backward(p: WitnessInput, steps: nat) returns (adj: Vec, choices: seq<Choice>, support: real)
    requires p.stride >= 1
    ensures adj == Root(p.Cadence(), steps, HEIGHT)
    ensures |choices| == steps
    ensures forall i ::
              0 <= i < steps ==> choices[steps - 1 - i] == Adversary(p.Cadence(), p.Bounds(steps), steps, HEIGHT)[i]
    ensures support + Reach(adj.z, p.z0) + Reach(adj.v, p.v0) == Support(p.Cadence(), p.Bounds(steps), steps, HEIGHT)
  {
    hide Vec.Dot;
    hide ErrorModel.Cadence.Push;
    hide ErrorModel.Cadence.Gain;
    hide ErrorModel.Cadence.PredictT;
    hide ErrorModel.Cadence.CorrectT;
    hide Support;
    hide Reach;
    hide Signed;
    hide ChoiceAt;
    var m := p.Cadence();
    ghost var b := p.Bounds(steps);
    SupportStart(m, b);
    ghost var plan := Adversary(m, b, steps, HEIGHT);
    adj, choices, support := HEIGHT, [], 0.0;
    for step := steps downto 0
      invariant |choices| == steps - step
      invariant support + Support(m, b, step, adj) == Support(m, b, steps, HEIGHT)
      invariant Root(m, step, adj) == Root(m, steps, HEIGHT)
      invariant Adversary(m, b, step, adj) == plan[..step]
      invariant forall i :: step <= i < steps ==> choices[steps - 1 - i] == plan[i]
    {
      var n := step + 1;
      SupportStep(m, b, n, adj);
      ChoiceIs(p, steps, n, adj);
      ghost var y := adj;
      var bp := 0.0;
      if n % p.stride == 0 && p.omega != 0.0 {
        var c := adj.Dot(m.Gain());
        bp := Signed(p.pressure, c);
        support := support + Reach(c, p.pressure);
        adj := m.CorrectT(adj);
      }
      var c := adj.Dot(m.Push());
      var ea := Signed(p.acceleration, c);
      support := support + Reach(c, p.acceleration);
      choices := choices + [Choice(ea, bp)];
      assert Choice(ea, bp) == ChoiceAt(m, b, n, y);
      adj := m.PredictT(adj);
      assert plan[..n] == Adversary(m, b, step, adj) + [Choice(ea, bp)];
      assert plan[..step] == plan[..n][..step];
    }
  }

  lemma ChoiceIs(p: WitnessInput, steps: nat, n: nat, y: Vec)
    requires p.stride >= 1 && 0 < n <= steps
    ensures var m := p.Cadence();
            ChoiceAt(m, p.Bounds(steps), n, y) ==
              Choice(Signed(p.acceleration, BeforeCorrection(m, n, y).Dot(m.Push())),
                     if m.Corrects(n) then Signed(p.pressure, y.Dot(m.Gain())) else 0.0)
  {
  }

  lemma SupportStart(m: Cadence, b: Bounds)
    requires m.stride >= 1
    ensures forall y :: Support(m, b, 0, y) == Reach(y.z, b.z0) + Reach(y.v, b.v0)
  {
  }

  lemma SupportStep(m: Cadence, b: Bounds, n: nat, y: Vec)
    requires m.stride >= 1 && 0 < n <= |b.acceleration|
    ensures var inner := BeforeCorrection(m, n, y);
            Support(m, b, n, y) == (if m.Corrects(n) then Reach(y.Dot(m.Gain()), b.pressure) else 0.0)
                                   + Reach(inner.Dot(m.Push()), b.acceleration[n - 1])
                                       + Support(m, b, n - 1, m.PredictT(inner))
  {
    hide Vec.Dot;
    hide ErrorModel.Cadence.PredictT;
    hide ErrorModel.Cadence.CorrectT;
  }

  /** The second loop: an independent forward recurrence through the choices in time order. */
  method Forward(p: WitnessInput, steps: nat, adj: Vec, choices: seq<Choice>) returns (z: real)
    requires p.stride >= 1 && |choices| == steps
    ensures z == Replay(p.Cadence(), Corner(p.Bounds(steps), adj), Reversed(choices)).z
  {
    hide ErrorModel.Cadence.Kz;
    hide ErrorModel.Cadence.Kv;
    hide Advance;
    hide FreeHeight;
    hide FreeSpeed;
    hide Nudge;
    hide Signed;
    var m, dt := p.Cadence(), p.dt;
    ghost var start, plan := Corner(p.Bounds(steps), adj), Reversed(choices);
    var v: real;
    z, v := Signed(p.z0, adj.z), Signed(p.v0, adj.v);
    for step := 1 to steps + 1
      invariant Vec(z, v) == Replay(m, start, plan[..step - 1])
    {
      var choice := choices[steps - step];
      ghost var before := Vec(z, v);
      z, v := FreeHeight(z, v, choice.acceleration, dt), FreeSpeed(v, choice.acceleration, dt);
      if step % p.stride == 0 && p.omega != 0.0 {
        var residual := choice.pressure - z;
        z, v := Nudge(z, m.Kz(), residual), Nudge(v, m.Kv(), residual);
      }
      AdvanceIs(m, before, choice, step);
      assert plan[..step][..step - 1] == plan[..step - 1];
    }
    assert plan[..steps] == plan;
  }

  lemma AdvanceIs(m: Cadence, s: Vec, c: Choice, n: nat)
    requires m.stride >= 1
    ensures var z, v := FreeHeight(s.z, s.v, c.acceleration, m.dt), FreeSpeed(s.v, c.acceleration, m.dt);
            Advance(m, s, c, n) == if m.Corrects(n)
                then Vec(Nudge(z, m.Kz(), c.pressure - z), Nudge(v, m.Kv(), c.pressure - z))
                                   else Vec(z, v)
  {
    hide ErrorModel.Cadence.Kz;
    hide ErrorModel.Cadence.Kv;
    FreeFall(s.z, s.v, c.acceleration, m.dt);
    var z, v := FreeHeight(s.z, s.v, c.acceleration, m.dt), FreeSpeed(s.v, c.acceleration, m.dt);
    hide FreeHeight;
    hide FreeSpeed;
    assert Add(m.Predict(s), c.acceleration, m.Push()) == Vec(z, v);
    hide Nudge;
  }

  function FreeHeight(z: real, v: real, a: real, dt: real): real {
    z + dt * v + 0.5 * dt * dt * a
  }

  function FreeSpeed(v: real, a: real, dt: real): real {
    v + dt * a
  }

  function Nudge(x: real, gain: real, residual: real): real {
    x + gain * residual
  }

  lemma FreeFall(z: real, v: real, a: real, dt: real)
    ensures z + dt * v + a * (0.5 * dt * dt) == FreeHeight(z, v, a, dt)
    ensures v + a * dt == FreeSpeed(v, a, dt)
  {
  }

  function Reversed(cs: seq<Choice>): (r: seq<Choice>)
    ensures |r| == |cs| && forall i :: 0 <= i < |cs| ==> r[i] == cs[|cs| - 1 - i]
  {
    seq(|cs|, i requires 0 <= i < |cs| => cs[|cs| - 1 - i])
  }

  /** Without tilt terms the two programs see the same bounds at every step, so their terminal values coincide. */
  lemma EnvelopeAgreesWithWitness(p: EnvelopeInput, sin: real -> real, cos: real -> real, n: nat)
    requires Trigonometric(sin, cos) && p.tilt0 == 0.0 && p.gyroRate == 0.0
    ensures var w := WitnessInput(p.duration, p.dt, p.omega, p.z0, p.v0, p.acceleration, p.pressure, p.stride);
            w.Cadence() == p.Cadence() && w.Bounds(n) == EnvelopeBounds(p, sin, cos, n)
    ensures TiltsSupported(p, n)
  {
    forall i: int
      ensures p.Tilt(i) == 0.0
      ensures StepBound(p, sin, cos, i) == p.acceleration
    {
    }
  }
}
