/** What the evaluators see of the vehicle in one step. */
module Observations {
  import opened Reals

  datatype Point = Point(x: real, y: real, z: real)

  /** One observation: position, velocity, contact points, time. */
  datatype Sample = Sample(x: real, y: real, z: real, vx: real, vy: real, vz: real, contacts: seq<Point>, now: real)

  const LANDED_DELTA := 0.07
  const MAX_LANDING_SPEED := 0.12
  const SETTLE_TIMEOUT := 1.5

  predicate Near(s: Sample, x: real, y: real, tolerance: real) {
    Abs(s.x - x) <= tolerance && Abs(s.y - y) <= tolerance
  }

  /** On the ground and stationary. */
  predicate Landed(s: Sample, origin: real) {
    && s.z <= origin + LANDED_DELTA
    && s.vx * s.vx + s.vy * s.vy <= MAX_LANDING_SPEED * MAX_LANDING_SPEED
    && Abs(s.vz) <= MAX_LANDING_SPEED
  }
}
