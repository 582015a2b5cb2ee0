/** Which inputs the two budget programs accept, in the terms of a caller. */
module BudgetDomain {
  import opened Reals
  import opened Budget

  // ---------- whole intervals ----------

  /** A number of steps that ends with the horizon. */
  predicate Fits(steps: int, dt: real, duration: real) {
    Gap(steps, dt, duration) <= 0.0000000001
  }

  /** How far so many steps end from the horizon. */
  function Gap(steps: int, dt: real, duration: real): real {
    Abs(steps as real * dt - duration)
  }

  lemma GapScales(x: real, d: real, n: int)
    requires d > 0.0
    ensures Gap(n, d, x) == Product(Abs(n as real - x / d), d)
  {
    var q := x / d;
    assert q * d == x;
    Difference(n as real, q, d);
  }

  lemma Difference(a: real, b: real, d: real)
    requires d > 0.0
    ensures Abs(a * d - b * d) == Product(Abs(a - b), d)
  {
    if a >= b {
      MulMonotone(b, a, d);
    } else {
      MulMonotone(a, b, d);
    }
  }

  lemma NoneNearer(x: real, n: int)
    ensures Abs(RoundHalfEven(x) as real - x) <= Abs(n as real - x)
  {
    var r := RoundHalfEven(x);
    if n > r {
      assert n as real >= r as real + 1.0;
    } else if n < r {
      assert n as real <= r as real - 1.0;
    }
    hide RoundHalfEven;
  }

  /** No other number of steps comes nearer to the horizon. */
  lemma NearestSteps(duration: real, dt: real, n: int)
    requires dt > 0.0
    ensures Gap(RoundHalfEven(duration / dt), dt, duration) <= Gap(n, dt, duration)
  {
    hide *;
    var x := duration / dt;
    NoneNearer(x, n);
    GapScales(duration, dt, n);
    GapScales(duration, dt, RoundHalfEven(x));
    ProductMonotone(Abs(RoundHalfEven(x) as real - x), Abs(n as real - x), dt);
  }

  lemma StepsFit(p: EnvelopeInput)
    requires p.dt > 0.0
    ensures p.WholeIntervals() <==> Fits(p.Steps(), p.dt, p.duration)
  {
    hide EnvelopeInput.Steps;
  }

  lemma FitsSome(p: EnvelopeInput)
    requires p.dt > 0.0
    ensures p.WholeIntervals() <==> exists n: int :: Fits(n, p.dt, p.duration)
  {
    hide *;
    StepsFit(p);
    if n: int :| Fits(n, p.dt, p.duration) {
      FitsNearest(p.duration, p.dt, n);
      StepsAre(p);
    }
  }

  lemma StepsAre(p: EnvelopeInput)
    requires p.dt > 0.0
    ensures p.Steps() == RoundHalfEven(p.duration / p.dt)
  {
    hide RoundHalfEven;
  }

  lemma FitsNearest(duration: real, dt: real, n: int)
    requires dt > 0.0 && Fits(n, dt, duration)
    ensures Fits(RoundHalfEven(duration / dt), dt, duration)
  {
    hide RoundHalfEven;
    hide Gap;
    NearestSteps(duration, dt, n);
  }

  /** The tilt bound at the end of a step, from the rate of the gyroscope. */
  lemma TiltIs(p: EnvelopeInput, step: int)
    ensures p.Tilt(step) == p.tilt0 + Product(p.gyroRate, Product(step as real, p.dt))
  {
  }

  /** Tilts only grow, so that the last one decides. */
  lemma LastTiltDecides(p: EnvelopeInput, n: nat)
    requires p.gyroRate >= 0.0 && p.dt > 0.0 && n >= 1
    ensures TiltsSupported(p, n) <==>
              p.tilt0 + Product(p.gyroRate, Product(n as real, p.dt)) <= 3.141592653589793 / 2.0
  {
    hide EnvelopeInput.Tilt;
    forall step: int | 1 <= step <= n
      ensures p.Tilt(step) <= p.Tilt(n)
    {
      TiltIs(p, step);
      TiltIs(p, n);
      ProductMonotone(step as real, n as real, p.dt);
      ProductMonotone(Product(step as real, p.dt), Product(n as real, p.dt), p.gyroRate);
      hide Product;
    }
    TiltIs(p, n);
    hide Product;
  }

  lemma EnvelopeCadence(p: EnvelopeInput)
    requires p.CadenceSupported()
    ensures 0.0 < p.duration && 0.0 < p.dt && p.stride >= 1
    ensures p.dt * p.stride as real <= 0.1 && p.omega * p.dt * p.stride as real < 0.1
  {
  }

  lemma CadenceEnvelope(p: EnvelopeInput)
    requires 0.0 < p.duration && 0.0 < p.dt && p.stride >= 1
    requires p.dt * p.stride as real <= 0.1 && p.omega * p.dt * p.stride as real < 0.1
    ensures p.CadenceSupported()
  {
  }

  lemma NoTilts(p: EnvelopeInput, n: int)
    requires n <= 0
    ensures TiltsSupported(p, if n < 0 then 0 else n)
  {
  }

  /**
   The envelope is computed exactly for nonnegative bounds, corrections at most 0.1 s apart and of a gain below 0.1, a
   whole number of prediction intervals, and a tilt that stays below a right angle to the end.
   */
  lemma EnvelopeAccepted(p: EnvelopeInput)
    ensures p.BoundsNonNegative() && p.CadenceSupported() && p.WholeIntervals() && TiltsSupported(p, p.Steps()) <==>
              && 0.0 < p.duration && 0.0 < p.dt && p.stride >= 1 && 0.0 <= p.omega && 0.0 <= p.z0 && 0.0 <= p.v0
              && 0.0 <= p.acceleration && 0.0 <= p.pressure && 0.0 <= p.tilt0 && 0.0 <= p.gyroRate
              && 0.0 <= p.horizontal && 0.0 <= p.vertical
              && p.dt * p.stride as real <= 0.1 && p.omega * p.dt * p.stride as real < 0.1
              && (exists n: int :: Fits(n, p.dt, p.duration))
              && var last := RoundHalfEven(p.duration / p.dt);
                 (last >= 1 ==>
                    p.tilt0 + Product(p.gyroRate, Product(last as real, p.dt)) <= 3.141592653589793 / 2.0)
  {
    if p.CadenceSupported() {
      EnvelopeCadence(p);
    }
    if 0.0 < p.duration && 0.0 < p.dt && p.stride >= 1 && p.dt * p.stride as real <= 0.1
       && p.omega * p.dt * p.stride as real < 0.1 {
      CadenceEnvelope(p);
    }
    hide RoundHalfEven;
    hide EnvelopeInput.WholeIntervals;
    hide EnvelopeInput.CadenceSupported;
    hide TiltsSupported;
    hide Product;
    hide Fits;
    if p.dt > 0.0 && p.gyroRate >= 0.0 {
      FitsSome(p);
      if p.Steps() >= 1 {
        LastTiltDecides(p, p.Steps());
      } else {
        NoTilts(p, p.Steps());
      }
    }
  }

  // ---------- the witness ----------

  /** A number of steps that ends with the horizon, up to 1e-10 s or one part in 1e9. */
  predicate FitsNearly(steps: int, dt: real, duration: real) {
    var length := Product(steps as real, dt);
    var gap := Abs(length - duration);
    steps >= 1 && (gap <= 0.0000000001 || gap <= 0.000000001 * length || gap <= 0.000000001 * duration)
  }

  lemma NearlyMeans(length: real, duration: real)
    requires length >= 0.0 && duration >= 0.0
    ensures var gap := Abs(length - duration);
            gap <= Max(0.000000001 * Max(Abs(length), Abs(duration)), 0.0000000001) <==>
              gap <= 0.0000000001 || gap <= 0.000000001 * length || gap <= 0.000000001 * duration
  {
  }

  lemma WitnessFits(p: WitnessInput)
    requires p.dt > 0.0 && p.duration >= 0.0
    ensures p.WholeIntervals() <==> FitsNearly(p.Steps(), p.dt, p.duration)
  {
    hide WitnessInput.Steps;
    if p.Steps() >= 1 {
      MulNonNegative(p.Steps() as real, p.dt);
      NearlyMeans(p.Steps() as real * p.dt, p.duration);
    }
  }

  lemma WitnessCadence(p: WitnessInput)
    requires p.CadenceSupported()
    ensures 0.0 < p.duration && 0.0 < p.dt <= 0.1 && p.stride >= 1
    ensures p.dt * p.stride as real <= 0.1 && p.omega * p.dt * p.stride as real < 0.1
  {
  }

  lemma CadenceWitness(p: WitnessInput)
    requires 0.0 < p.duration && 0.0 < p.dt <= 0.1 && p.stride >= 1
    requires p.dt * p.stride as real <= 0.1 && p.omega * p.dt * p.stride as real < 0.1
    ensures p.CadenceSupported()
  {
  }

  /** The witness is computed exactly for nonnegative bounds, the same cadences, and at least one whole interval. */
  lemma WitnessAccepted(p: WitnessInput)
    ensures p.BoundsNonNegative() && p.CadenceSupported() && p.WholeIntervals() <==>
              && 0.0 < p.duration && 0.0 < p.dt <= 0.1 && p.stride >= 1 && 0.0 <= p.omega && 0.0 <= p.z0
              && 0.0 <= p.v0 && 0.0 <= p.acceleration && 0.0 <= p.pressure
              && p.dt * p.stride as real <= 0.1 && p.omega * p.dt * p.stride as real < 0.1
              && FitsNearly(RoundHalfEven(p.duration / p.dt), p.dt, p.duration)
  {
    if p.CadenceSupported() {
      WitnessCadence(p);
    }
    if 0.0 < p.duration && 0.0 < p.dt <= 0.1 && p.stride >= 1 && p.dt * p.stride as real <= 0.1
       && p.omega * p.dt * p.stride as real < 0.1 {
      CadenceWitness(p);
    }
    hide RoundHalfEven;
    hide WitnessInput.WholeIntervals;
    hide WitnessInput.CadenceSupported;
    hide FitsNearly;
    if p.dt > 0.0 && p.duration > 0.0 {
      WitnessFits(p);
    }
  }
}
