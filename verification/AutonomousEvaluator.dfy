/**
 The evaluator of the autonomous activity: milestones of one attempt, and its single verdict.
 The milestones are specified by where they are first met in the samples of the attempt.
 */
module AutonomousEvaluator {
  import opened Options
  import opened Reals
  import opened Observations
  import Course
  import opened ActivityBroker
  import opened ActivityProtocol

  /** The name of the mission in the markers. */
  function Oracle(): string { "progression-autonomous-strategy-v1" }
  const PATTERN_COUNT := 4
  const AIRBORNE_DELTA := 0.20
  const HIDE_Y := -2.35
  const CENTER_Y := -2.50
  const LEFT_Y := -2.15
  const RIGHT_Y := -2.85
  const ROUTE_TOLERANCE := 0.11
  const COLLISION_HEIGHT := 0.08

  datatype Route = Forward | Left | Right

  datatype Pattern = Pattern(small: bool, row1Blocked: bool, row2Blocked: bool, junction: Route)

  const PATTERNS := [
    Pattern(true, true, false, Forward), Pattern(false, true, false, Forward),
    Pattern(true, true, true, Right), Pattern(false, true, true, Right)]

  function PatternOf(attempt: nat): Pattern {
    PATTERNS[(if attempt > 0 then attempt - 1 else 0) % PATTERN_COUNT]
  }

  // ---------- the milestones ----------

  predicate Airborne(s: Sample, origin: real) { s.z >= origin + AIRBORNE_DELTA }
  predicate AtStation(s: Sample) { Near(s, 0.0, -2.0, 0.13) }
  predicate LeftLane(s: Sample) { s.y <= HIDE_Y }
  predicate Ahead(s: Sample, x: real) { Near(s, x, CENTER_Y, ROUTE_TOLERANCE) }
  predicate Detour(s: Sample, x: real) { Near(s, x, RIGHT_Y, ROUTE_TOLERANCE) }
  predicate InRow(s: Sample, x: real) { Ahead(s, x) || Detour(s, x) }
  predicate RowValid(s: Sample, x: real, blocked: bool) { if blocked then Detour(s, x) else Ahead(s, x) }
  predicate AtJunction(s: Sample) { Near(s, 0.80, CENTER_Y, ROUTE_TOLERANCE) }
  predicate OnRoute(s: Sample, y: real) { Near(s, 1.10, y, ROUTE_TOLERANCE) }
  predicate OnAnyRoute(s: Sample) { OnRoute(s, CENTER_Y) || OnRoute(s, LEFT_Y) || OnRoute(s, RIGHT_Y) }
  function Hazard(origin: real): Course.Hazard { Course.Above(origin + COLLISION_HEIGHT) }

  function ObservedRoute(s: Sample): Route {
    if OnRoute(s, LEFT_Y) then Left else if OnRoute(s, RIGHT_Y) then Right else Forward
  }

  predicate InFinalBay(s: Sample, p: Pattern) {
    Near(s, 1.40, if p.small then LEFT_Y else RIGHT_Y, 0.12)
  }

  // ---------- where they are first met ----------

  datatype Milestone = Lift(origin: real) | Station | Lane | Row(x: real) | Junction | Route

  predicate Meets(m: Milestone, s: Sample) {
    match m
    case Lift(origin) => Airborne(s, origin)
    case Station => AtStation(s)
    case Lane => LeftLane(s)
    case Row(x) => InRow(s, x)
    case Junction => AtJunction(s)
    case Route => OnAnyRoute(s)
  }

  /** The first position at or after `from` that meets a milestone; at least |h| when there is none. */
  function First(h: seq<Sample>, from: nat, m: Milestone): (k: nat)
    ensures k >= from
    ensures k < |h| ==> Meets(m, h[k])
    ensures forall i :: from <= i < k && i < |h| ==> !Meets(m, h[i])
    decreases |h| - from
  {
    if from >= |h| || Meets(m, h[from]) then from else First(h, from + 1, m)
  }

  /** Positions of the milestones of one attempt, each sought from the previous one on. */
  datatype Journey = Journey(air: nat, station: nat, hidden: nat, row1: nat, row2: nat, junction: nat, route: nat)

  function JourneyOf(h: seq<Sample>, p: Pattern, origin: real): Journey {
    var air := First(h, 0, Lift(origin));
    var station := First(h, air, Station);
    var hidden := First(h, station, Lane);
    var row1 := First(h, hidden, Row(0.50));
    var row2 := if Row1Passed(h, p, row1) then First(h, row1, Row(0.80)) else |h| + row1;
    var junction := if Row2Passed(h, p, row2) then First(h, row2, Junction) else |h| + row2;
    var route := First(h, junction, Route);
    Journey(air, station, hidden, row1, row2, junction, route)
  }

  predicate Row1Passed(h: seq<Sample>, p: Pattern, k: nat) { k < |h| && RowValid(h[k], 0.50, p.row1Blocked) }
  predicate Row2Passed(h: seq<Sample>, p: Pattern, k: nat) { k < |h| && RowValid(h[k], 0.80, p.row2Blocked) }
  predicate RoutePassed(h: seq<Sample>, p: Pattern, k: nat) { k < |h| && ObservedRoute(h[k]) == p.junction }

  /** A row or the junction was first met at the wrong place. */
  predicate WrongRoute(h: seq<Sample>, p: Pattern, j: Journey) {
    || (j.row1 < |h| && !Row1Passed(h, p, j.row1))
    || (j.row2 < |h| && !Row2Passed(h, p, j.row2))
    || (j.route < |h| && !RoutePassed(h, p, j.route))
  }

  predicate Completed(h: seq<Sample>, p: Pattern, j: Journey) {
    Row1Passed(h, p, j.row1) && Row2Passed(h, p, j.row2) && RoutePassed(h, p, j.route)
  }

  /** Milestones are met in order: the journey of a complete attempt lists them. */
  lemma CompleteIsOrdered(h: seq<Sample>, p: Pattern, origin: real)
    requires Completed(h, p, JourneyOf(h, p, origin))
    ensures var j := JourneyOf(h, p, origin);
            && j.air <= j.station <= j.hidden <= j.row1 <= j.row2 <= j.junction <= j.route < |h|
            && Airborne(h[j.air], origin) && AtStation(h[j.station]) && LeftLane(h[j.hidden])
            && RowValid(h[j.row1], 0.50, p.row1Blocked) && RowValid(h[j.row2], 0.80, p.row2Blocked)
            && AtJunction(h[j.junction]) && OnAnyRoute(h[j.route]) && ObservedRoute(h[j.route]) == p.junction
  {
  }

  lemma {:induction false} FirstAppend(h: seq<Sample>, s: Sample, from: nat, m: Milestone)
    ensures First(h, from, m) < |h| ==> First(h + [s], from, m) == First(h, from, m)
    ensures First(h, from, m) >= |h| ==> First(h + [s], from, m) >= |h|
    decreases |h| - from
  {
    if from < |h| {
      assert (h + [s])[from] == h[from];
      FirstAppend(h, s, from + 1, m);
    }
  }

  /** How one more sample extends a stage that was sought from `from`, now sought from `from2`. */
  lemma StageAppend(h: seq<Sample>, s: Sample, from: nat, from2: nat, m: Milestone)
    requires from < |h| ==> from2 == from
    requires from >= |h| ==> from2 >= |h|
    ensures First(h, from, m) < |h| ==> First(h + [s], from2, m) == First(h, from, m)
    ensures First(h, from, m) >= |h| ==> First(h + [s], from2, m) >= |h|
    ensures First(h, from, m) >= |h| ==> (First(h + [s], from2, m) < |h| + 1 <==> from2 <= |h| && Meets(m, s))
  {
    FirstAppend(h, s, from, m);
    assert (h + [s])[|h|] == s;
  }

  lemma {:induction false} JourneyAppend(h: seq<Sample>, s: Sample, p: Pattern, origin: real)
    ensures var n, j, j' := |h|, JourneyOf(h, p, origin), JourneyOf(h + [s], p, origin);
            && (j'.air <= n <==> j.air < n || Airborne(s, origin))
            && (j'.station <= n <==> j.station < n || (j'.air <= n && AtStation(s)))
            && (j'.hidden <= n <==> j.hidden < n || (j'.station <= n && LeftLane(s)))
            && (j.row1 < n ==> j'.row1 == j.row1)
            && (j.row1 >= n ==> j'.row1 >= n && (j'.row1 <= n <==> j'.hidden <= n && InRow(s, 0.50)))
  {
    var j, j' := JourneyOf(h, p, origin), JourneyOf(h + [s], p, origin);
    StageAppend(h, s, 0, 0, Lift(origin));
    StageAppend(h, s, j.air, j'.air, Station);
    StageAppend(h, s, j.station, j'.station, Lane);
    StageAppend(h, s, j.hidden, j'.hidden, Row(0.50));
  }

  lemma {:induction false} JourneyAppendRows(h: seq<Sample>, s: Sample, p: Pattern, origin: real)
    ensures var n, j, j' := |h|, JourneyOf(h, p, origin), JourneyOf(h + [s], p, origin);
            var h' := h + [s];
            && (j.row2 < n ==> j'.row2 == j.row2)
            && (j.row2 >= n ==> j'.row2 >= n && (j'.row2 <= n <==> Row1Passed(h', p, j'.row1) && InRow(s, 0.80)))
            && (j.junction < n ==> j'.junction == j.junction)
            && (j.junction >= n ==>
                 j'.junction >= n && (j'.junction <= n <==> Row2Passed(h', p, j'.row2) && AtJunction(s)))
            && (j.route < n ==> j'.route == j.route)
            && (j.route >= n ==> j'.route >= n && (j'.route <= n <==> j'.junction <= n && OnAnyRoute(s)))
  {
    var n, j, j' := |h|, JourneyOf(h, p, origin), JourneyOf(h + [s], p, origin);
    JourneyAppend(h, s, p, origin);
    if j.row1 < n {
      assert (h + [s])[j.row1] == h[j.row1];
    }
    StageAppend(h, s, j.row1, j'.row1, Row(0.80));
    if j.row2 < n {
      assert (h + [s])[j.row2] == h[j.row2];
    }
    StageAppend(h, s, j.row2, j'.row2, Junction);
    StageAppend(h, s, j.junction, j'.junction, Route);
  }

  lemma PassedAppend(h: seq<Sample>, s: Sample, p: Pattern, j: Journey, j': Journey)
    requires j.row1 < |h| ==> j'.row1 == j.row1
    requires j.row1 >= |h| ==> j'.row1 >= |h|
    requires j.row2 < |h| ==> j'.row2 == j.row2
    requires j.row2 >= |h| ==> j'.row2 >= |h|
    requires j.route < |h| ==> j'.route == j.route
    requires j.route >= |h| ==> j'.route >= |h|
    ensures var n, h' := |h|, h + [s];
            && (Row1Passed(h', p, j'.row1) <==>
                 Row1Passed(h, p, j.row1) || (j'.row1 == n && RowValid(s, 0.50, p.row1Blocked)))
            && (Row2Passed(h', p, j'.row2) <==>
                 Row2Passed(h, p, j.row2) || (j'.row2 == n && RowValid(s, 0.80, p.row2Blocked)))
            && (RoutePassed(h', p, j'.route) <==>
                 RoutePassed(h, p, j.route) || (j'.route == n && ObservedRoute(s) == p.junction))
  {
    hide Near;
  }

  // ---------- milestones as flags ----------

  datatype Flags = Flags(airborne: bool, station: bool, hidden: bool, rows: int, wrong: bool,
                         junction: bool, route: bool, collision: bool)

  /** What the samples of an attempt have met, read off the journey. */
  function FlagsOf(h: seq<Sample>, p: Pattern, origin: real): Flags {
    var j := JourneyOf(h, p, origin);
    Flags(j.air < |h|, j.station < |h|, j.hidden < |h|,
          if !Row1Passed(h, p, j.row1) then 0 else if !Row2Passed(h, p, j.row2) then 1 else 2,
          WrongRoute(h, p, j), j.junction < |h|, RoutePassed(h, p, j.route), Course.Collided(Hazard(origin), h))
  }

  function RowFlags(f: Flags, s: Sample, x: real, blocked: bool, next: int): Flags {
    if !InRow(s, x) then f
    else if RowValid(s, x, blocked) then f.(rows := next)
    else f.(wrong := true)
  }

  /** Take-off, station, loading lane and collisions. */
  function Departure(f: Flags, s: Sample, origin: real): Flags {
    var airborne := f.airborne || Airborne(s, origin);
    var station := f.station || (airborne && AtStation(s));
    f.(airborne := airborne, station := station, hidden := f.hidden || (station && LeftLane(s)),
       collision := f.collision || Course.Collides(Hazard(origin), s))
  }

  /** The two rows, in order. */
  function Rows(f: Flags, s: Sample, p: Pattern): Flags {
    var g := if f.hidden && f.rows == 0 && !f.wrong then RowFlags(f, s, 0.50, p.row1Blocked, 1) else f;
    if g.rows == 1 && !g.wrong then RowFlags(g, s, 0.80, p.row2Blocked, 2) else g
  }

  /** The junction and the route taken from it. */
  function Choose(f: Flags, s: Sample, p: Pattern): Flags {
    var g := f.(junction := f.junction || (f.rows == 2 && AtJunction(s)));
    if g.junction && !g.route && !g.wrong && OnAnyRoute(s) then
      if ObservedRoute(s) == p.junction then g.(route := true) else g.(wrong := true)
    else g
  }

  /** How one sample updates the flags, stage by stage. */
  function FlagsAfter(f: Flags, s: Sample, p: Pattern, origin: real): Flags {
    Choose(Rows(Departure(f, s, origin), s, p), s, p)
  }

  /** Updating the flags sample by sample computes exactly what the journey says. */
  lemma FlagsFollowJourney(h: seq<Sample>, s: Sample, p: Pattern, origin: real)
    ensures FlagsOf(h + [s], p, origin) == FlagsAfter(FlagsOf(h, p, origin), s, p, origin)
  {
    var j, j' := JourneyOf(h, p, origin), JourneyOf(h + [s], p, origin);
    JourneyAppend(h, s, p, origin);
    JourneyAppendRows(h, s, p, origin);
    JourneyNested(h, p, origin);
    hide JourneyOf;
    PassedAppend(h, s, p, j, j');
    Course.CollidedAppend(Hazard(origin), h, s);
    hide Course.Collided;
    hide Near;
    hide Course.Collides;
  }

  lemma JourneyNested(h: seq<Sample>, p: Pattern, origin: real)
    ensures var j, n := JourneyOf(h, p, origin), |h|;
            && (j.row1 < n ==> j.hidden < n && InRow(h[j.row1], 0.50))
            && (j.row2 < n ==> Row1Passed(h, p, j.row1) && InRow(h[j.row2], 0.80))
            && (j.junction < n ==> Row2Passed(h, p, j.row2))
            && (j.route < n ==> j.junction < n)
  {
  }

  lemma NoFlags(p: Pattern, origin: real)
    ensures FlagsOf([], p, origin) == Flags(false, false, false, 0, false, false, false, false)
  {
  }

  /** Every milestone in order, no collision, and no first visit to a wrong place. */
  predicate CleanJourney(h: seq<Sample>, p: Pattern, origin: real) {
    var j := JourneyOf(h, p, origin);
    !Course.Collided(Hazard(origin), h) && !WrongRoute(h, p, j) && Completed(h, p, j)
  }

  lemma CompleteFlags(h: seq<Sample>, p: Pattern, origin: real)
    ensures CleanJourney(h, p, origin) <==>
              FlagsOf(h, p, origin) == Flags(true, true, true, 2, false, true, true, false)
  {
  }

  // ---------- the evaluator ----------

  class Evaluator {
    const originZ: real
    var activeAttempt: nat
    var hasAttempt: bool
    var patternIndex: nat
    var airborneSeen: bool
    var stationSeen: bool
    var referenceUnavailable: bool
    var rowProgress: int
    var wrongRouteSeen: bool
    var junctionDecisionSeen: bool
    var junctionValidRouteSeen: bool
    var collisionSeen: bool
    var completionSeen: bool
    var completionTime: real
    var reported: bool
    var barriers: seq<bool>      // which of the seven barriers stand
    var referenceVisible: bool   // the parcel gauge; the mask stands exactly when it does not
    ghost var history: seq<Sample>

    ghost function Goal(): Pattern
      reads this`activeAttempt
    {
      PatternOf(activeAttempt)
    }

    /** The flags say exactly which milestones the samples of the attempt have met. */
    ghost predicate Milestones()
      reads this`activeAttempt, this`hasAttempt, this`patternIndex, this`history
      reads this`airborneSeen, this`stationSeen, this`referenceUnavailable, this`rowProgress, this`wrongRouteSeen,
            this`junctionDecisionSeen, this`junctionValidRouteSeen, this`collisionSeen
    {
      && (hasAttempt ==> patternIndex < PATTERN_COUNT && PATTERNS[patternIndex] == Goal())
      && Current() == FlagsOf(history, Goal(), originZ)
    }

    ghost function Current(): Flags
      reads this`airborneSeen, this`stationSeen, this`referenceUnavailable, this`rowProgress, this`wrongRouteSeen,
            this`junctionDecisionSeen, this`junctionValidRouteSeen, this`collisionSeen
    {
      Flags(airborneSeen, stationSeen, referenceUnavailable, rowProgress, wrongRouteSeen,
            junctionDecisionSeen, junctionValidRouteSeen, collisionSeen)
    }

    /** While a completed attempt has no verdict, its last sample came less than the settle time after completion. */
    ghost predicate Timely()
      reads this
    {
      completionSeen && !reported ==> history != [] && history[|history| - 1].now - completionTime < SETTLE_TIMEOUT
    }

    ghost predicate Valid()
      reads this
    {
      Milestones() && Timely() && World()
    }

    /** The world is that of the attempt, and the gauge is visible until the reference is hidden. */
    ghost predicate World()
      reads this`activeAttempt, this`hasAttempt, this`barriers, this`referenceVisible, this`referenceUnavailable
    {
      hasAttempt ==> WorldMatches(Goal()) && GaugeShows()
    }

    ghost predicate GaugeShows()
      reads this`referenceVisible, this`referenceUnavailable
    {
      referenceVisible == !referenceUnavailable
    }

    ghost function GateNow(): Gate
      reads this
    {
      Gate(if hasAttempt then Some(activeAttempt) else None, completionSeen, reported)
    }

    constructor (originZ: real)
      ensures Valid() && GateNow() == Gate(None, false, false)
    {
      this.originZ := originZ;
      activeAttempt, hasAttempt, patternIndex := 0, false, 0;
      airborneSeen, stationSeen, referenceUnavailable, rowProgress := false, false, false, 0;
      wrongRouteSeen, junctionDecisionSeen, junctionValidRouteSeen, collisionSeen := false, false, false, false;
      completionSeen, completionTime, reported := false, 0.0, false;
      barriers, referenceVisible := [], false;
      history := [];
      hide FlagsOf;
    }

    /** A new attempt: its pattern is set up and every milestone forgotten. */
    method Configure(attempt: nat)
      modifies this
      ensures Valid() && GateNow() == Gate(Some(attempt), false, false) && history == []
    {
      hide FlagsOf;
      var index := (if attempt > 0 then attempt - 1 else 0) % PATTERN_COUNT;
      var pattern := PATTERNS[index];
      assert pattern == PatternOf(attempt);
      hide PatternOf;
      hide WorldMatches;
      NoFlags(pattern, originZ);
      activeAttempt, hasAttempt, patternIndex := attempt, true, index;
      BuildWorld(pattern);
      Forget();
    }

    method Forget()
      modifies this`airborneSeen, this`stationSeen, this`referenceUnavailable, this`rowProgress, this`wrongRouteSeen,
               this`junctionDecisionSeen, this`junctionValidRouteSeen, this`collisionSeen, this`completionSeen,
               this`completionTime, this`reported, this`history
      ensures Current() == Flags(false, false, false, 0, false, false, false, false)
      ensures !completionSeen && !reported && history == []
    {
      airborneSeen, stationSeen, referenceUnavailable, rowProgress := false, false, false, 0;
      wrongRouteSeen, junctionDecisionSeen, junctionValidRouteSeen, collisionSeen := false, false, false, false;
      completionSeen, completionTime, reported := false, 0.0, false;
      history := [];
    }

    method BuildWorld(p: Pattern)
      modifies this`barriers, this`referenceVisible
      ensures WorldMatches(p) && referenceVisible
    {
      barriers := [p.row1Blocked, !p.row1Blocked, p.row2Blocked, !p.row2Blocked,
                   p.junction != Forward, p.junction != Left, p.junction != Right];
      referenceVisible := true;
    }

    /** One way is open through each row and at the junction, and it is the way the pattern calls valid. */
    ghost predicate WorldMatches(p: Pattern)
      reads this`barriers
    {
      && |barriers| == 7
      && barriers[0] == p.row1Blocked != barriers[1] && barriers[2] == p.row2Blocked != barriers[3]
      && (!barriers[4] <==> p.junction == Forward)
      && (!barriers[5] <==> p.junction == Left)
      && (!barriers[6] <==> p.junction == Right)
    }

    method UpdateRow(s: Sample, x: real, blocked: bool, next: int)
      modifies this`rowProgress, this`wrongRouteSeen
      ensures Current() == RowFlags(old(Current()), s, x, blocked, next)
    {
      hide Near;
      var forward, detour := Ahead(s, x), Detour(s, x);
      if forward || detour {
        var valid := if blocked then detour else forward;
        if valid {
          rowProgress := next;
        } else {
          wrongRouteSeen := true;
        }
      }
    }

    method UpdateRows(s: Sample, pattern: Pattern)
      modifies this`rowProgress, this`wrongRouteSeen
      ensures Current() == Rows(old(Current()), s, pattern)
    {
      hide RowFlags;
      if referenceUnavailable && rowProgress == 0 && !wrongRouteSeen {
        UpdateRow(s, 0.50, pattern.row1Blocked, 1);
      }
      if rowProgress == 1 && !wrongRouteSeen {
        UpdateRow(s, 0.80, pattern.row2Blocked, 2);
      }
    }

    method UpdateJunction(s: Sample, pattern: Pattern)
      modifies this`junctionDecisionSeen, this`junctionValidRouteSeen, this`wrongRouteSeen
      ensures Current() == Choose(old(Current()), s, pattern)
    {
      hide Near;
      if rowProgress == 2 && !junctionDecisionSeen && AtJunction(s) {
        junctionDecisionSeen := true;
      }
      if junctionDecisionSeen && !junctionValidRouteSeen && !wrongRouteSeen && OnAnyRoute(s) {
        if ObservedRoute(s) == pattern.junction {
          junctionValidRouteSeen := true;
        } else {
          wrongRouteSeen := true;
        }
      }
    }

    method UpdateDeparture(s: Sample)
      modifies this`airborneSeen, this`stationSeen, this`referenceUnavailable, this`referenceVisible, this`collisionSeen
      ensures Current() == Departure(old(Current()), s, originZ)
      ensures old(GaugeShows()) ==> GaugeShows()
    {
      hide Near;
      if s.z >= originZ + AIRBORNE_DELTA {
        airborneSeen := true;
      }
      if airborneSeen && !stationSeen && AtStation(s) {
        stationSeen := true;
      }
      if stationSeen && !referenceUnavailable && s.y <= HIDE_Y {
        referenceVisible := false;
        referenceUnavailable := true;
      }
      Contacts(s);
      hide Course.Collides;
    }

    method Contacts(s: Sample)
      modifies this`collisionSeen
      ensures collisionSeen == (old(collisionSeen) || Course.Collides(Hazard(originZ), s))
    {
      for index := 0 to |s.contacts|
        invariant collisionSeen == (old(collisionSeen) || exists i ::
                    0 <= i < index && s.contacts[i].z > originZ + COLLISION_HEIGHT)
      {
        if !collisionSeen && s.contacts[index].z > originZ + COLLISION_HEIGHT {
          collisionSeen := true;
        }
      }
    }

    /** Milestones after one more sample. */
    method Track(s: Sample)
      requires Milestones() && World() && hasAttempt
      modifies this`airborneSeen, this`stationSeen, this`referenceUnavailable, this`referenceVisible,
               this`collisionSeen,
               this`rowProgress, this`wrongRouteSeen, this`junctionDecisionSeen, this`junctionValidRouteSeen,
               this`history
      ensures Milestones() && World() && history == old(history) + [s]
    {
      hide WorldMatches;
      hide GaugeShows;
      hide PatternOf;
      FlagsFollowJourney(history, s, Goal(), originZ);
      hide FlagsOf;
      hide Departure;
      hide Rows;
      hide Choose;
      history := history + [s];
      var pattern := PATTERNS[patternIndex];
      UpdateDeparture(s);
      UpdateRows(s, pattern);
      UpdateJunction(s, pattern);
    }

    ghost predicate Achieved(s: Sample)
      reads this`activeAttempt, this`history
    {
      CleanJourney(history, Goal(), originZ) && Landed(s, originZ) && InFinalBay(s, Goal())
    }

    /** A milestone was missed for good: something was touched, or a row or the junction first met at a wrong place. */
    ghost predicate Failed()
      reads this`activeAttempt, this`history
    {
      Course.Collided(Hazard(originZ), history) || WrongRoute(history, Goal(), JourneyOf(history, Goal(), originZ))
    }

    /** A verdict is due: a probe finds a failure, or a completed attempt is decided or its settle time is over. */
    ghost predicate Due(data: Field, s: Sample)
      reads this`activeAttempt, this`history, this`completionSeen, this`completionTime
    {
      || (data == FailureProbe(activeAttempt, Oracle()) && Failed())
      || (completionSeen && (Failed() || Achieved(s) || s.now - completionTime >= SETTLE_TIMEOUT))
    }

    /**
     One step on the field content and the observation it read; `verdict` is what it writes back.
     A verdict is given at most once per attempt and exactly when it is due, `achieved` exactly for a clean
     complete journey that ends landed in the right bay.
     */
    method Step(data: Field, observation: Option<Sample>) returns (verdict: Option<Status>)
      requires Valid()
      modifies this
      ensures Valid()
      ensures GateStep(Oracle(), data, old(GateNow()), GateNow(), verdict)
      ensures history == (if Refreshed(old(GateNow()), data) != old(GateNow()) then [] else old(history))
                         + (if observation.Some? && hasAttempt && !Refreshed(old(GateNow()), data).reported
                             then [observation.value] else [])
      ensures verdict.Some? ==> observation.Some?
                                && verdict.value == if Achieved(observation.value) then VerdictAchieved
                                   else VerdictNotAchieved
      ensures observation.Some? && hasAttempt && !Refreshed(old(GateNow()), data).reported ==>
                && (verdict.Some? <==> Due(data, observation.value))
                && (completionSeen <==>
                     Refreshed(old(GateNow()), data).completionSeen || data == Completion(activeAttempt, Oracle()))
      ensures completionSeen ==>
                if Refreshed(old(GateNow()), data).completionSeen then completionTime == old(completionTime)
                else observation.Some? && completionTime == observation.value.now
    {
      hide Milestones;
      hide Achieved;
      hide Evaluator.Failed;
      hide GateStep;
      hide Oracle;
      hide World;
      ghost var gate := GateNow();
      RefreshedGate(Oracle(), data, gate);
      if data.Attempt? && (!hasAttempt || data.attempt != activeAttempt) {
        Configure(data.attempt);
      }
      assert GateNow() == Refreshed(gate, data);
      if !hasAttempt || reported || observation.None? {
        return None;
      }
      Track(observation.value);
      verdict := Judge(data, observation.value);
    }

    /** The verdict after a tracked sample. */
    method Judge(data: Field, s: Sample) returns (verdict: Option<Status>)
      requires Milestones() && World() && hasAttempt && !reported && history != [] && history[|history| - 1] == s
      requires data.Attempt? ==> data.attempt == activeAttempt
      modifies this`reported, this`completionSeen, this`completionTime
      ensures Valid()
      ensures GateStep(Oracle(), data, old(GateNow()), GateNow(), verdict)
      ensures completionSeen <==> old(completionSeen) || data == Completion(activeAttempt, Oracle())
      ensures completionSeen ==> completionTime == if old(completionSeen) then old(completionTime) else s.now
      ensures verdict.Some? <==> Due(data, s)
      ensures verdict.Some? ==> verdict.value == if Achieved(s) then VerdictAchieved else VerdictNotAchieved
      ensures reported <==> verdict.Some?
    {
      hide Milestones;
      hide Achieved;
      hide Evaluator.Failed;
      hide FlagsOf;
      hide Landed;
      hide InFinalBay;
      hide CleanJourney;
      hide PatternOf;
      hide Evaluator.Goal;
      hide Oracle;
      hide GateStep;
      hide Refreshed;
      hide Evaluator.Current;
      AchievedIs(s);
      ghost var gate := GateNow();
      verdict := None;
      if data == FailureProbe(activeAttempt, Oracle()) && (collisionSeen || wrongRouteSeen) {
        reported := true;
        verdict := Some(VerdictNotAchieved);
      } else {
        if !completionSeen && data == Completion(activeAttempt, Oracle()) {
          completionSeen := true;
          completionTime := s.now;
        }
        if completionSeen {
          verdict := Decide(s);
        }
      }
      GateAllows(Oracle(), data, gate, GateNow(), verdict);
    }

    lemma AchievedIs(s: Sample)
      requires Milestones() && hasAttempt
      ensures Achieved(s) <==> (Current() == Flags(true, true, true, 2, false, true, true, false)
                                && Landed(s, originZ) && InFinalBay(s, PATTERNS[patternIndex]))
      ensures Failed() <==> collisionSeen || wrongRouteSeen
      ensures Failed() ==> !Achieved(s)
    {
    }

    lemma FailureIs(s: Sample)
      requires Milestones() && hasAttempt
      ensures Failed() <==> collisionSeen || wrongRouteSeen
      ensures Failed() ==> !Achieved(s)
    {
      AchievedIs(s);
    }

    /** The test for success, for an attempt that has not failed. */
    method Accomplished(s: Sample) returns (achieved: bool)
      requires Milestones() && hasAttempt && !Failed()
      ensures achieved == Achieved(s)
    {
      AchievedIs(s);
      hide Milestones;
      hide Achieved;
      hide Evaluator.Failed;
      hide Landed;
      hide InFinalBay;
      hide FlagsOf;
      hide CleanJourney;
      hide PatternOf;
      hide Evaluator.Goal;
      achieved := airborneSeen && stationSeen && referenceUnavailable && rowProgress == 2 && junctionDecisionSeen
                  && junctionValidRouteSeen && Landed(s, originZ) && InFinalBay(s, PATTERNS[patternIndex]);
    }

    /** The verdict once completion has been seen. */
    method Decide(s: Sample) returns (verdict: Option<Status>)
      requires Milestones() && World() && hasAttempt && !reported && completionSeen
      requires history != [] && history[|history| - 1] == s
      modifies this`reported
      ensures Valid() && (reported <==> verdict.Some?)
      ensures verdict.Some? <==> Failed() || Achieved(s) || s.now - completionTime >= SETTLE_TIMEOUT
      ensures verdict.Some? ==> verdict.value == if Achieved(s) then VerdictAchieved else VerdictNotAchieved
    {
      hide World;
      hide Milestones;
      hide Achieved;
      hide Evaluator.Failed;
      hide Evaluator.Current;
      hide Evaluator.Goal;
      FailureIs(s);
      if collisionSeen || wrongRouteSeen {
        reported := true;
        return Some(VerdictNotAchieved);
      }
      var achieved := Accomplished(s);
      if achieved {
        reported := true;
        return Some(VerdictAchieved);
      } else if s.now - completionTime >= SETTLE_TIMEOUT {
        reported := true;
        return Some(VerdictNotAchieved);
      }
      return None;
    }
  }
}
