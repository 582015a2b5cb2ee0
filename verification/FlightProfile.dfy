/** The pure helpers of the flight loop: angles, the landing reference, and the observation clock. */
module FlightProfile {
  import opened Options
  import opened Reals

  const PI := 3.14159265358979323846
  const TWO_PI := 2.0 * PI

  // ---------- angles ----------

  /** The representative of an angle in (-PI, PI]. */
  function Wrapped(angle: real): real {
    angle + ((PI - angle) / TWO_PI).Floor as real * TWO_PI
  }

  function Turned(angle: real, turns: int): real {
    angle + turns as real * TWO_PI
  }

  lemma QuotientShift(x: real, d: real)
    requires d > 0.0
    ensures (x + d) / d == x / d + 1.0
    ensures (x - d) / d == x / d - 1.0
  {
    var q := x / d;
    assert q * d == x;
    QuotientIs(x + d, d, q + 1.0);
    QuotientIs(x - d, d, q - 1.0);
  }

  lemma WrappedIs(angle: real, turns: int)
    requires ((PI - angle) / TWO_PI).Floor == turns
    ensures Wrapped(angle) == angle + turns as real * TWO_PI
  {
  }

  lemma WrappedShift(angle: real)
    ensures Wrapped(angle - TWO_PI) == Wrapped(angle)
    ensures Wrapped(angle + TWO_PI) == Wrapped(angle)
  {
    QuotientShift(PI - angle, TWO_PI);
    var q := (PI - angle) / TWO_PI;
    assert PI - (angle - TWO_PI) == PI - angle + TWO_PI && PI - (angle + TWO_PI) == PI - angle - TWO_PI;
    WrappedIs(angle - TWO_PI, q.Floor + 1);
    WrappedIs(angle + TWO_PI, q.Floor - 1);
  }

  lemma WrappedInRange(angle: real)
    ensures -PI < Wrapped(angle) <= PI
    ensures -PI < angle <= PI ==> Wrapped(angle) == angle
    ensures exists turns :: Wrapped(angle) == Turned(angle, turns)
  {
    var q := (PI - angle) / TWO_PI;
    assert q * TWO_PI == PI - angle;
    assert Wrapped(angle) == Turned(angle, q.Floor);
  }

  method WrapAngle(start: real) returns (angle: real)
    ensures angle == Wrapped(start)
  {
    angle := start;
    while angle > PI
      invariant Wrapped(angle) == Wrapped(start)
      decreases angle.Floor
    {
      WrappedShift(angle);
      angle := angle - TWO_PI;
    }
    while angle <= -PI
      invariant angle <= PI && Wrapped(angle) == Wrapped(start)
      decreases (-angle).Floor
    {
      WrappedShift(angle);
      angle := angle + TWO_PI;
    }
    WrappedInRange(angle);
  }

  // ---------- landing reference ----------

  const LAND_DESCENT_SPEED := 0.15
  const LAND_APPROACH_SPEED := 0.40
  const LAND_APPROACH_HEIGHT := 0.30

  function ApproachDistance(startZ: real, groundZ: real): real {
    Max(0.0, startZ - groundZ - LAND_APPROACH_HEIGHT)
  }

  function LandAltitudeReference(startZ: real, groundZ: real, elapsed: real): real {
    var distance := ApproachDistance(startZ, groundZ);
    var time := distance / LAND_APPROACH_SPEED;
    if elapsed <= time then startZ - LAND_APPROACH_SPEED * elapsed
    else Max(groundZ, startZ - distance - LAND_DESCENT_SPEED * (elapsed - time))
  }

  /**
   From any height above ground: starts there, never climbs, never falls faster than either slope, ends on the
   ground.
   */
  lemma LandReferenceDescends(startZ: real, groundZ: real, e1: real, e2: real)
    requires startZ >= groundZ && 0.0 <= e1 <= e2
    ensures LandAltitudeReference(startZ, groundZ, 0.0) == startZ
    ensures groundZ <= LandAltitudeReference(startZ, groundZ, e2) <= LandAltitudeReference(startZ, groundZ,
            e1) <= startZ
    ensures LandAltitudeReference(startZ, groundZ, e1) - LandAltitudeReference(startZ, groundZ, e2)
         <= LAND_APPROACH_SPEED * (e2 - e1)
  {
  }

  /** Within the last 30 cm the slow slope holds. */
  lemma LandReferenceSlowsDown(startZ: real, groundZ: real, e1: real, e2: real)
    requires startZ >= groundZ && 0.0 <= e1 <= e2
    requires LandAltitudeReference(startZ, groundZ, e1) <= groundZ + LAND_APPROACH_HEIGHT
    ensures LandAltitudeReference(startZ, groundZ, e1) - LandAltitudeReference(startZ, groundZ, e2)
         <= LAND_DESCENT_SPEED * (e2 - e1)
  {
  }

  /** The ground is reached, and kept, after exactly the approach time plus the final descent time. */
  lemma LandReferenceArrives(startZ: real, groundZ: real, elapsed: real)
    requires startZ >= groundZ && elapsed >= 0.0
    ensures var distance := ApproachDistance(startZ, groundZ);
            var arrival := distance / LAND_APPROACH_SPEED + (startZ - groundZ - distance) / LAND_DESCENT_SPEED;
            LandAltitudeReference(startZ, groundZ, elapsed) == groundZ <==> elapsed >= arrival
  {
  }

  // ---------- the observation clock ----------

  /** Program observation only: alive from an admitted take-off until revoked. Times are finite here. */
  class SimulationClock {
    var start: real
    var last: real
    var active: bool

    constructor ()
      ensures !active
    {
      start, last, active := 0.0, 0.0, false;
    }

    method Revoke()
      modifies this
      ensures !active && start == old(start) && last == old(last)
    {
      active := false;
    }

    /** Starts a lifetime at a finite nonnegative time; any other time leaves the clock revoked. */
    method Begin(now: Number)
      modifies this
      ensures active == (now.Finite? && now.value >= 0.0)
      ensures now.Finite? ==> start == last == now.value
    {
      active := now.Finite? && now.value >= 0.0;
      start, last := now.Or0(), now.Or0();
    }

    /** Elapsed time since the take-off; a clock that runs backwards or loses its time is revoked. */
    method Read(now: Number) returns (seconds: Option<real>)
      modifies this
      ensures seconds.Some? <==> old(active) && now.Finite? && now.value >= old(last)
      ensures seconds.Some? ==> active && seconds.value == now.value - start && last == now.value && start == old(start)
      ensures seconds.None? ==> !active && start == old(start) && last == old(last)
    {
      if !active || now.NotFinite? || now.value < last {
        Revoke();
        return None;
      }
      last := now.value;
      return Some(now.value - start);
    }
  }
}
