/**
 What flight requests ask for, in the units of the request: where each admitted one aims, and where the vehicle is
 while it settles.
 */
module FlightMeaning {
  import opened Options
  import opened Reals
  import opened FlightProfile
  import opened FlightRuntime

  // ---------- admission ----------

  /** A flight request is admitted exactly within these limits. */
  lemma AdmittedExactly(r: Request, s: Sample, airborne: bool, ground: real)
    requires FlightRequest(r)
    ensures RefusalOf(r, s, airborne, ground).None? <==>
              match r
              case TakeOff(_, v, ready) => ready && !airborne && v.Finite? && 0.2 <= v.value <= 1.5
              case Move(_, heading, v) =>
                airborne && v.Finite? && 0.01 <= v.value <= 2.0 && heading != UnknownHeading
              case Vertical(_, climb, v) =>
                && airborne && v.Finite? && 0.1 <= v.value <= 0.8
                && ((climb == Up && 0.2 <= s.pose.z + v.value - ground <= 1.5)
                    || (climb == Down && 0.2 <= s.pose.z - v.value - ground <= 1.5))
              case Turn(_, v) => airborne && v.Finite? && (1.0 <= v.value <= 179.0 || -179.0 <= v.value <= -1.0)
              case Wait(_, v) => airborne && v.Finite? && 0.1 <= v.value <= 5.0
              case _ => airborne
  {
  }

  /** VERTICAL_LIMIT is the answer exactly to a well-formed climb or descent that would leave 0.2 m to 1.5 m. */
  lemma LimitExactly(r: Request, s: Sample, airborne: bool, ground: real)
    requires FlightRequest(r)
    ensures RefusalOf(r, s, airborne, ground) == Some("VERTICAL_LIMIT") <==>
              && r.Vertical? && airborne && r.value.Finite? && 0.1 <= r.value.value <= 0.8
              && ((r.climb == Up && !(0.2 <= s.pose.z + r.value.value - ground <= 1.5))
                  || (r.climb == Down && !(0.2 <= s.pose.z - r.value.value - ground <= 1.5)))
  {
    assert "VERTICAL_LIMIT"[0] == 'V' && "SCENE_UNAVAILABLE"[0] == 'S' && "INVALID_TAKEOFF"[0] == 'I'
           && "INVALID_MOVE"[0] == 'I' && "INVALID_VERTICAL"[0] == 'I' && "INVALID_TURN"[0] == 'I'
           && "INVALID_WAIT"[0] == 'I' && "INVALID_LAND"[0] == 'I';
  }

  /** What is answered at once, by the limits of each request. */
  lemma AnsweredExactly(r: Request, s: Sample, v: Motion, airborne: bool, origin: Pose)
    requires r.Scene? || r.Range? || r.Speed? || r.Light?
    ensures var p, a := s.pose, AnswerAtOnce(r, s, v, airborne, origin);
            var home := Squared(p.x - origin.x) + Squared(p.y - origin.y) <= 0.03 * 0.03
                        && -0.05 <= p.z - origin.z <= 0.05;
            var still := Squared(v.vx) + Squared(v.vy) <= 0.12 * 0.12 && -0.15 <= v.vz <= 0.15;
            match r
            case Scene(id, selected) =>
              a == if airborne || !home || !still then Err(id, "RESET_REQUIRED")
                   else if selected then Ok(id) else Err(id, "SCENE_UNAVAILABLE")
            case Range(id, known, m) =>
              && (a.Value? <==> known && m.Finite? && 0.0 <= m.value <= 2.001) && (a.Value? ==> a == Value(id, m.value))
              && (!a.Value? ==> a == Err(id, if known then "INVALID_RANGE_SAMPLE" else "CAPABILITY_UNAVAILABLE"))
            case Speed(id, m) => a == if m.Finite? && 0.1 <= m.value <= 0.35 then Ok(id) else Err(id, "INVALID_SPEED")
            case Light(id, known) => a == if known then Ok(id) else Err(id, "INVALID_LIGHT")
            case _ => true
  {
    if r.Scene? {
      CloserIs(s.pose.x - origin.x, s.pose.y - origin.y, 0.03);
      CloserIs(v.vx, v.vy, 0.12);
      hide Closer;
      hide Squared;
    }
  }

  lemma CloserIs(a: real, b: real, limit: real)
    ensures Closer(a, b, limit) <==> Squared(a) + Squared(b) <= limit * limit
  {
  }

  /**
   The fail-safe trips exactly past 1.2 rad of roll or pitch while flying, and past 25 s of a command, 5 s of
   RESET.
   */
  lemma TripsExactly(flight: Flight, s: Sample)
    ensures var unsafe := !(-1.2 <= s.pose.roll <= 1.2 && -1.2 <= s.pose.pitch <= 1.2);
            flight.Trips(s) <==>
              match flight.command
              case Idle => flight.airborne && unsafe
              case Resetting => s.now - flight.actionStart > 5.0
              case _ => unsafe || s.now - flight.actionStart > 25.0
  {
  }

  // ---------- aim ----------

  /** How far apart two directions are after so many whole turns. */
  function Gap(yaw: real, asked: real, turns: int): real {
    Abs(asked - yaw + turns as real * (2.0 * 3.14159265358979323846))
  }

  /** The same direction, up to whole turns and a tolerance in degrees. */
  ghost predicate Facing(yaw: real, asked: real, degrees: real) {
    exists turns: int :: Gap(yaw, asked, turns) <= degrees * 3.14159265358979323846 / 180.0
  }

  ghost predicate FacingWithin(yaw: real, asked: real, degrees: real) {
    exists turns: int :: Gap(yaw, asked, turns) < degrees * 3.14159265358979323846 / 180.0
  }

  lemma GapIs(yaw: real, asked: real, turns: int)
    ensures Gap(yaw, asked, turns) == Abs(Turned(asked - yaw, turns))
    ensures Gap(yaw, asked, turns) <= 0.0 <==> yaw == Turned(asked, turns)
  {
  }

  lemma TurnAims(r: Request, s: Sample, ground: real, z: real)
    requires r.Turn? && r.value.Finite?
    ensures Aim(r, s, ground, z).yaw == Wrapped(s.pose.yaw + r.value.value * 3.14159265358979323846 / 180.0)
  {
    hide Wrapped;
  }

  /** Each admitted request aims at what it asks for, and holds everything else. */
  lemma AimIsAsked(r: Request, s: Sample, airborne: bool, ground: real, z: real)
    requires FlightRequest(r) && RefusalOf(r, s, airborne, ground).None?
    ensures var t := Aim(r, s, ground, z);
            && (!r.Move? ==> t.x == s.pose.x && t.y == s.pose.y)
            && (!r.Turn? ==> t.yaw == s.pose.yaw)
            && (r.TakeOff? ==> t.z - ground == r.value.value)
            && (r.Vertical? ==> t.z - s.pose.z == if r.climb.Up? then r.value.value else -r.value.value)
            && (r.Turn? || r.Wait? ==> t.z == s.pose.z)
            && (r.Turn? ==>
                  -3.14159265358979323846 < t.yaw <= 3.14159265358979323846
                  && Facing(t.yaw, s.pose.yaw + r.value.value * 3.14159265358979323846 / 180.0, 0.0))
            && (r.Land? ==> t.z == ground)
            && (r.Move? ==> t.z == z && t == MoveTarget(s, r.heading, r.value.Or0(), z))
  {
    hide Wrapped;
    hide Turned;
    if r.Turn? {
      var asked := s.pose.yaw + r.value.value * 3.14159265358979323846 / 180.0;
      TurnAims(r, s, ground, z);
      WrappedInRange(asked);
      var turns :| Wrapped(asked) == Turned(asked, turns);
      GapIs(Wrapped(asked), asked, turns);
    }
    hide Gap;
  }

  // ---------- where the vehicle is while a command settles ----------

  ghost predicate Near(p: Pose, x: real, y: real, z: real) {
    Squared(p.x - x) + Squared(p.y - y) <= 0.03 * 0.03 && -0.05 < p.z - z < 0.05
  }

  ghost predicate Still(v: Motion, s: Sample) {
    Squared(v.vx) + Squared(v.vy) < 0.12 * 0.12 && -0.10 < s.yawRate < 0.10 && -0.15 < v.vz < 0.15
  }

  /** The vehicle is where the order asked it to be, and holds still. */
  ghost predicate There(o: Order, s: Sample, v: Motion, origin: Pose) {
    var from, p, c, d := o.sample.pose, s.pose, o.sample.c, o.sample.s;
    match o.request
    case TakeOff(_, h, _) => -0.05 < p.z - (origin.z + h.Or0()) < 0.05 && Still(v, s)
    case Vertical(_, climb, h) =>
      Near(p, from.x, from.y, if climb == Up then from.z + h.Or0() else from.z - h.Or0())
          && Facing(p.yaw, from.yaw, 2.0)
      && Still(v, s)
    case Turn(_, a) =>
      Near(p, from.x, from.y, from.z) && Facing(p.yaw, from.yaw + a.Or0() * 3.14159265358979323846 / 180.0, 2.0)
      && Still(v, s)
    case Wait(_, _) => Near(p, from.x, from.y, from.z) && Facing(p.yaw, from.yaw, 2.0) && Still(v, s)
    case Move(_, heading, m) =>
      var l := m.Or0();
      && (heading == Ahead ==> Near(p, from.x + Product(c, l), from.y + Product(d, l), o.height))
      && (heading == Behind ==> Near(p, from.x - Product(c, l), from.y - Product(d, l), o.height))
      && (heading == ToLeft ==> Near(p, from.x - Product(d, l), from.y + Product(c, l), o.height))
      && (heading == ToRight ==> Near(p, from.x + Product(d, l), from.y - Product(c, l), o.height))
      && Facing(p.yaw, from.yaw, 2.0) && Still(v, s)
    case Reset(_) => Back(s, v, origin)
    case _ => p.z - origin.z <= 0.05 && -0.15 < v.vz < 0.15
  }

  /** Where and how the vehicle was when the program started. */
  ghost predicate Back(s: Sample, v: Motion, origin: Pose) {
    var p, tilt := s.pose, 2.0 * 3.14159265358979323846 / 180.0;
    && -0.03 < p.x - origin.x < 0.03 && -0.03 < p.y - origin.y < 0.03 && -0.05 < p.z - origin.z < 0.05
    && -tilt < p.roll - origin.roll < tilt && -tilt < p.pitch - origin.pitch < tilt
    && FacingWithin(p.yaw, origin.yaw, 2.0) && Still(v, s)
  }

  lemma BodySpeed(vx: real, vy: real, c: real, s: real)
    requires c * c + s * s == 1.0
    ensures (vx * c + vy * s) * (vx * c + vy * s) + (-vx * s + vy * c) * (-vx * s + vy * c)
            == Squared(vx) + Squared(vy)
  {
    var k := c * c + s * s;
    MulEqual(vx * vx + vy * vy, k, 1.0);
  }

  lemma SteadyIsStill(v: Motion, s: Sample)
    requires s.c * s.c + s.s * s.s == 1.0
    ensures Steady(v, s) <==> Still(v, s)
  {
    BodySpeed(v.vx, v.vy, s.c, s.s);
    hide Squared;
  }

  lemma CloserIsNear(p: Pose, x: real, y: real, z: real)
    ensures Closer(x - p.x, y - p.y, POSITION_TOL) && Abs(p.z - z) < ALT_TOL <==> Near(p, x, y, z)
  {
    Flipped(x, p.x);
    Flipped(y, p.y);
  }

  lemma Flipped(x: real, y: real)
    ensures (x - y) * (x - y) == (y - x) * (y - x)
  {
  }

  lemma TurnsAdd(asked: real, target: real, yaw: real, m: int, n: int)
    requires target == Turned(asked, m)
    ensures Turned(target - yaw, n) == Turned(asked - yaw, m + n)
  {
  }

  /** Whole turns apart and both less than half a turn is no turn apart. */
  lemma OneTurn(x: real, m: int, n: int)
    requires -PI < Turned(x, m) <= PI && -PI < Turned(x, n) < PI
    ensures m == n
  {
  }

  /** The wrapped difference to a target is the least one, over all whole turns, to what was asked. */
  lemma WrappedIsLeast(yaw: real, target: real, asked: real, m: int) returns (n: int)
    requires target == Turned(asked, m)
    ensures Abs(Wrapped(target - yaw)) == Gap(yaw, asked, n)
    ensures forall k: int :: Gap(yaw, asked, k) < PI ==> k == n
  {
    WrappedInRange(target - yaw);
    var i :| Wrapped(target - yaw) == Turned(target - yaw, i);
    n := m + i;
    TurnsAdd(asked, target, yaw, m, i);
    GapIs(yaw, asked, n);
    hide Wrapped;
    forall k: int | Gap(yaw, asked, k) < PI
      ensures k == n
    {
      GapIs(yaw, asked, k);
      OneTurn(asked - yaw, n, k);
    }
  }

  lemma WithinIsFacing(yaw: real, target: real, asked: real, m: int)
    requires target == Turned(asked, m)
    ensures Abs(Wrapped(target - yaw)) <= YAW_TOL <==> Facing(yaw, asked, 2.0)
    ensures Abs(Wrapped(target - yaw)) < YAW_TOL <==> FacingWithin(yaw, asked, 2.0)
  {
    var n := WrappedIsLeast(yaw, target, asked, m);
    hide Wrapped;
    hide Turned;
    hide Gap;
    assert YAW_TOL == 2.0 * 3.14159265358979323846 / 180.0 < PI;
  }

  lemma TurnsTo(yaw: real, asked: real) returns (turns: int)
    requires Facing(yaw, asked, 0.0)
    ensures yaw == Turned(asked, turns)
  {
    turns :| Gap(yaw, asked, turns) <= 0.0 * 3.14159265358979323846 / 180.0;
    GapIs(yaw, asked, turns);
  }

  lemma NoTurn(angle: real)
    ensures Turned(angle, 0) == angle
  {
  }

  lemma HoldingIs(v: Motion, s: Sample, t: Target, asked: real, m: int)
    requires t.yaw == Turned(asked, m) && s.c * s.c + s.s * s.s == 1.0
    ensures Holding(v, s, t) <==> Near(s.pose, t.x, t.y, t.z) && Facing(s.pose.yaw, asked, 2.0) && Still(v, s)
  {
    SteadyIsStill(v, s);
    CloserIsNear(s.pose, t.x, t.y, t.z);
    WithinIsFacing(s.pose.yaw, t.yaw, asked, m);
    hide Wrapped;
    hide Closer;
    hide Turned;
    hide Steady;
    hide Near;
    hide Facing;
    hide Still;
  }

  lemma HomeIs(v: Motion, s: Sample, origin: Pose)
    requires s.c * s.c + s.s * s.s == 1.0
    ensures Home(v, s, origin) <==> Back(s, v, origin)
  {
    SteadyIsStill(v, s);
    NoTurn(origin.yaw);
    WithinIsFacing(s.pose.yaw, origin.yaw, origin.yaw, 0);
    WrappedBack(s.pose.yaw - origin.yaw);
    hide Steady;
    hide Still;
    hide Wrapped;
    hide FacingWithin;
  }

  /** Seen from the other side, a difference less than half a turn only changes its sign. */
  lemma WrappedBack(angle: real)
    ensures Abs(Wrapped(angle)) < YAW_TOL <==> Abs(Wrapped(-angle)) < YAW_TOL
  {
    if Abs(Wrapped(angle)) < YAW_TOL {
      SmallBack(angle);
    } else if Abs(Wrapped(-angle)) < YAW_TOL {
      SmallBack(-angle);
      assert -(-angle) == angle;
    }
    hide Wrapped;
  }

  lemma SmallBack(angle: real)
    requires Abs(Wrapped(angle)) < YAW_TOL
    ensures Abs(Wrapped(-angle)) < YAW_TOL
  {
    WrappedInRange(angle);
    WrappedInRange(-angle);
    hide Wrapped;
    var m :| Wrapped(angle) == Turned(angle, m);
    var n :| Wrapped(-angle) == Turned(-angle, n);
    TurnBack(angle, m);
    OneTurn(-angle, n, -m);
  }

  lemma TurnBack(a: real, n: int)
    ensures Turned(-a, -n) == -Turned(a, n)
  {
  }

  lemma MoveAims(s: Sample, h: Heading, l: real, z: real)
    ensures var t, x, y, c, d := MoveTarget(s, h, l, z), s.pose.x, s.pose.y, s.c, s.s;
            && t.z == z
            && (h == Ahead ==> t.x == x + Product(c, l) && t.y == y + Product(d, l))
            && (h == Behind ==> t.x == x - Product(c, l) && t.y == y - Product(d, l))
            && (h == ToLeft ==> t.x == x - Product(d, l) && t.y == y + Product(c, l))
            && (h == ToRight ==> t.x == x + Product(d, l) && t.y == y - Product(c, l))
  {
  }

  /** A move, by its heading. */
  lemma MoveIsThere(o: Order, p: Pose, l: real)
    requires o.request.Move? && o.request.heading != UnknownHeading
    ensures var h, x, y, c, d := o.request.heading, o.sample.pose.x, o.sample.pose.y, o.sample.c, o.sample.s;
            var t := MoveTarget(o.sample, h, l, o.height);
            Near(p, t.x, t.y, t.z) <==>
              && (h == Ahead ==> Near(p, x + Product(c, l), y + Product(d, l), o.height))
              && (h == Behind ==> Near(p, x - Product(c, l), y - Product(d, l), o.height))
              && (h == ToLeft ==> Near(p, x - Product(d, l), y + Product(c, l), o.height))
              && (h == ToRight ==> Near(p, x + Product(d, l), y - Product(c, l), o.height))
  {
    hide *;
    MoveAims(o.sample, o.request.heading, l, o.height);
  }

  /** A settled command other than a take-off, a landing and a RESET. */
  lemma HeldIsThere(o: Order, s: Sample, v: Motion, origin: Pose)
    requires Admitted(o, origin) && (o.request.Move? || o.request.Vertical? || o.request.Turn? || o.request.Wait?)
    requires s.c * s.c + s.s * s.s == 1.0
    ensures Holding(v, s, TargetOf(o, origin)) <==> There(o, s, v, origin)
  {
    hide Facing;
    hide Holding;
    hide Still;
    hide Near;
    hide Turned;
    hide Wrapped;
    hide RefusalOf;
    hide Product;
    var r, t, from := o.request, TargetOf(o, origin), o.sample.pose;
    AdmittedExactly(r, o.sample, o.airborne, origin.z);
    AimIsAsked(r, o.sample, o.airborne, origin.z, o.height);
    hide Aim;
    if r.Turn? {
      var asked := from.yaw + r.value.value * 3.14159265358979323846 / 180.0;
      var m := TurnsTo(t.yaw, asked);
      HoldingIs(v, s, t, asked, m);
    } else {
      NoTurn(from.yaw);
      HoldingIs(v, s, t, from.yaw, 0);
      hide MoveTarget;
      if r.Move? {
        MoveIsThere(o, s.pose, r.value.Or0());
      }
      assert r.Vertical? ==> t.z == if r.climb == Up then from.z + r.value.value else from.z - r.value.value;
    }
  }

  /** The tolerance of an admitted order is met exactly where it asked the vehicle to be. */
  lemma MetIsThere(p: Processed, o: Order, origin: Pose)
    requires Admitted(o, origin) && p.executing == Some(o) && p.sample.c * p.sample.c + p.sample.s * p.sample.s == 1.0
    ensures Met(p, o, origin) <==> There(o, p.sample, p.motion, origin)
  {
    var r, s, v := o.request, p.sample, p.motion;
    hide Holding;
    hide Home;
    hide Still;
    hide Steady;
    hide Near;
    hide Facing;
    hide Back;
    hide RefusalOf;
    SteadyIsStill(v, s);
    HomeIs(v, s, origin);
    if r.TakeOff? {
      AdmittedExactly(r, o.sample, o.airborne, origin.z);
    } else if !r.Land? && !r.Reset? {
      HeldIsThere(o, s, v, origin);
    }
  }

  /**
   What an OK for an action means in its own units: at every sample of a stretch of at least half a second (a quarter
   for RESET) the vehicle was where the request asked it to be.
   */
  lemma OkIsThere(flight: Flight, e: Settled, k: nat)
    requires flight.Valid() && e in flight.settled && e.first <= k <= e.last < |flight.history|
    requires var s := flight.history[k].sample; s.c * s.c + s.s * s.s == 1.0
    ensures There(e.order, flight.history[k].sample, flight.history[k].motion, flight.origin)
    ensures var r := e.order.request;
            var settling := flight.history[e.last].sample.now - flight.history[e.first].sample.now;
            && (r.Reset? ==> settling >= 0.25)
            && (r.TakeOff? || r.Move? || r.Vertical? || r.Turn? || r.Land? ==> settling >= 0.5)
            && (r.Wait? ==> flight.history[e.last].sample.now - e.order.sample.now >= r.value.Or0())
  {
    hide There;
    hide Ready;
    hide TargetOf;
    hide Admitted;
    flight.OkIsHeld(e, k);
    hide Flight.Valid;
    MetIsThere(flight.history[k], e.order, flight.origin);
  }
}
