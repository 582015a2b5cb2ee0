/**
 Two missions judged in one loop: the combined-decisions activity and the memory activity.
 Each iteration reads the shared field once and writes at most one verdict to it.
 */
module CombinedEvaluator {
  import opened Options
  import opened Reals
  import opened Observations
  import opened ActivityBroker
  import opened ActivityProtocol
  import opened Course

  function CombinedOracle(): string { "progression-combined-decisions-v1" }
  function MemoryOracle(): string { "progression-memory-v1" }

  const AIRBORNE_DELTA := 0.20
  const COLLISION_HEIGHT := 0.08
  const ROUTE_TOLERANCE := 0.10
  const MEMORY_TOLERANCE := 0.11
  const STANDING_Z := 0.55
  const SUNK_Z := -1.00
  const STATION_Y := -1.50
  /** The stage of the memory mission that hides the reference panel. */
  const HIDING := 2

  datatype Way = Leftwards | Rightwards | Onwards

  datatype CombinedPattern = CombinedPattern(frontBlocked: bool, leftBlocked: bool, rightBlocked: bool, valid: Way)
  datatype MemoryPattern = MemoryPattern(panelX: real, small: bool, first: Way, second: Way)

  const COMBINED_PATTERNS := [
    CombinedPattern(false, true, true, Onwards), CombinedPattern(true, false, true, Leftwards),
    CombinedPattern(true, true, false, Rightwards)]
  const MEMORY_PATTERNS := [
    MemoryPattern(1.25, true, Leftwards, Rightwards), MemoryPattern(0.35, false, Rightwards, Leftwards)]

  function CombinedOf(attempt: nat): CombinedPattern {
    COMBINED_PATTERNS[(if attempt > 0 then attempt - 1 else 0) % 3]
  }

  function MemoryOf(attempt: nat): MemoryPattern {
    MEMORY_PATTERNS[(if attempt > 0 then attempt - 1 else 0) % 2]
  }

  /** Where a way stands among the options of a fork. */
  function Index(way: Way): nat {
    match way
    case Leftwards => 0
    case Rightwards => 1
    case Onwards => 2
  }

  function CombinedStages(p: CombinedPattern, origin: real): seq<Stage> {
    [Lift(origin + AIRBORNE_DELTA),
     At(Place(1.40, -0.60, ROUTE_TOLERANCE)),
     Fork([Place(1.40, -0.30, ROUTE_TOLERANCE), Place(1.40, -0.90, ROUTE_TOLERANCE),
         Place(1.70, -0.60, ROUTE_TOLERANCE)],
          Index(p.valid))]
  }

  function Standing(blocked: bool): real {
    if blocked then STANDING_Z else SUNK_Z
  }

  function Barriers(p: CombinedPattern): seq<Point> {
    [Point(1.65, -0.60, Standing(p.frontBlocked)), Point(1.40, -0.35, Standing(p.leftBlocked)),
     Point(1.40, -0.85, Standing(p.rightBlocked))]
  }

  function Sides(x: real, way: Way): Stage {
    Fork([Place(x, -1.25, MEMORY_TOLERANCE), Place(x, -1.75, MEMORY_TOLERANCE)], Index(way))
  }

  function MemoryStages(p: MemoryPattern, origin: real): seq<Stage> {
    [Lift(origin + AIRBORNE_DELTA), At(Place(0.0, STATION_Y, 0.13)), Past(0.12),
     At(Place(0.65, STATION_Y, MEMORY_TOLERANCE)), Sides(0.65, p.first),
     At(Place(1.20, STATION_Y, MEMORY_TOLERANCE)), Sides(1.20, p.second)]
  }

  const COMBINED_ARRIVAL := Place(1.80, -0.30, 0.11)
  const MEMORY_ARRIVAL := Place(1.65, -1.50, 0.12)

  /** The one barrier that is sunk stands before the way that counts as valid. */
  lemma OneWayIsOpen(attempt: nat)
    ensures var p := CombinedOf(attempt);
            && (p.valid == Onwards <==> Barriers(p)[0].z == SUNK_Z)
            && (p.valid == Leftwards <==> Barriers(p)[1].z == SUNK_Z)
            && (p.valid == Rightwards <==> Barriers(p)[2].z == SUNK_Z)
  {
  }

  // ---------- one mission ----------

  /** What one mission has seen in the attempt, and whether it was judged. */
  class Mission {
    const oracle: string
    const originZ: real
    var stages: seq<Stage>
    var arrival: Place
    var hazard: Hazard
    var done: nat            // the milestone flags, which rise in order
    var wrongSeen: bool
    var collisionSeen: bool
    var completionSeen: bool
    var completionTime: real
    var reported: bool
    ghost var history: seq<Sample>

    ghost function Now(): Progress
      reads this`done, this`wrongSeen
    {
      Progress(done, wrongSeen)
    }

    /** The flags say what the samples have met: stages from their first hits on, wrong ways, contacts. */
    ghost predicate Milestones()
      reads this`stages, this`hazard, this`history, this`done, this`wrongSeen, this`collisionSeen
    {
      Now() == ProgressOf(stages, history) && collisionSeen == Collided(hazard, history)
    }

    /** While a completed attempt has no verdict, its last sample came less than the settle time after completion. */
    ghost predicate Timely()
      reads this`history, this`completionSeen, this`completionTime, this`reported
    {
      completionSeen && !reported ==> history != [] && history[|history| - 1].now - completionTime < SETTLE_TIMEOUT
    }

    ghost predicate Valid()
      reads this
    {
      Milestones() && Timely()
    }

    ghost predicate Failed()
      reads this`stages, this`hazard, this`history
    {
      Collided(hazard, history) || ProgressOf(stages, history).wrong
    }

    /** Every stage met in order and on the right way, nothing touched, and landed at the arrival. */
    ghost predicate Achieved(s: Sample)
      reads this`stages, this`arrival, this`hazard, this`history
    {
      !Failed() && ProgressOf(stages, history).done == |stages| && Landed(s, originZ) && NearPlace(s, arrival)
    }

    /** A verdict is due: a probe finds a failure, or a completed attempt is decided or its settle time is over. */
    ghost predicate Due(attempt: nat, data: Field, s: Sample)
      reads this
    {
      || (data == FailureProbe(attempt, oracle) && Failed())
      || (completionSeen && (Failed() || Achieved(s) || s.now - completionTime >= SETTLE_TIMEOUT))
    }

    /**
     After a tracked sample, from whether and when completion was seen before: it is latched with its time, and
     there is a verdict exactly when it is due.
     */
    ghost predicate Judged(completed: bool, since: real, attempt: nat, data: Field, s: Sample, verdict: Option<Status>)
      reads this
    {
      && (completionSeen <==> completed || data == Completion(attempt, oracle))
      && (completionSeen ==> completionTime == if completed then since else s.now)
      && (verdict.Some? <==> Due(attempt, data, s))
      && (verdict.Some? ==> verdict.value == if Achieved(s) then VerdictAchieved else VerdictNotAchieved)
    }

    /** Achieved exactly when every stage was met in order from its first hit on, with nothing touched. */
    lemma AchievedIsReached(s: Sample)
      ensures Achieved(s) <==> Reached(stages, history, |stages|) && !Collided(hazard, history)
                               && Landed(s, originZ) && NearPlace(s, arrival)
    {
      ProgressDecides(stages, history, |stages|);
      InCourse(stages, history);
      if Left(stages, history) {
        LeftIsFinal(stages, history);
      }
    }

    ghost function GateAt(attempt: Option<nat>): Gate
      reads this`completionSeen, this`reported
    {
      Gate(attempt, completionSeen, reported)
    }

    constructor (oracle: string, originZ: real)
      ensures this.oracle == oracle && this.originZ == originZ
      ensures Valid() && history == [] && !completionSeen && !reported
    {
      this.oracle, this.originZ := oracle, originZ;
      stages, arrival, hazard := [], Place(0.0, 0.0, 0.0), Boxes([]);
      done, wrongSeen, collisionSeen := 0, false, false;
      completionSeen, completionTime, reported := false, 0.0, false;
      history := [];
    }

    method Begin(course: seq<Stage>, arrival: Place, hazard: Hazard)
      modifies this
      ensures Valid() && stages == course && this.arrival == arrival && this.hazard == hazard
      ensures history == [] && done == 0 && !completionSeen && !reported
    {
      stages, this.arrival, this.hazard := course, arrival, hazard;
      done, wrongSeen, collisionSeen := 0, false, false;
      completionSeen, completionTime, reported := false, 0.0, false;
      history := [];
    }

    /** The next stage was tried on this sample and not met. */
    predicate Held(s: Sample)
      reads this`stages, this`done, this`wrongSeen
    {
      wrongSeen || done >= |stages| || !Hit(stages[done], s)
    }

    /** Tries stage k, whose turn it is when the stages before it are done. */
    method Advance(k: nat, s: Sample)
      requires k < |stages| && done <= |stages| && (done >= k || Held(s))
      modifies this`done, this`wrongSeen
      ensures old(done) <= done <= |stages| && (done > k || Held(s))
      ensures Pass(stages, Now(), s) == Pass(stages, old(Now()), s)
      ensures done == old(done) || (old(done) == k && done == k + 1)
    {
      hide Hit;
      hide Right;
      if done == k && !wrongSeen && Hit(stages[k], s) {
        if Right(stages[k], s) {
          done := k + 1;
        } else {
          wrongSeen := true;
        }
      }
    }

    /** Once every stage was tried, the sample has no more to give. */
    lemma AllTried(s: Sample)
      requires done <= |stages| && (done >= |stages| || Held(s))
      ensures Pass(stages, Now(), s) == Now()
    {
    }

    method Touch(s: Sample)
      modifies this`collisionSeen
      ensures collisionSeen == (old(collisionSeen) || Collides(hazard, s))
    {
      hide Touches;
      for index := 0 to |s.contacts|
        invariant collisionSeen == (old(collisionSeen) || exists i :: 0 <= i < index && Touches(hazard, s.contacts[i]))
      {
        if !collisionSeen {
          collisionSeen := Touching(hazard, s.contacts[index]);
        }
      }
    }

    method Touching(hazard: Hazard, c: Point) returns (touches: bool)
      ensures touches == Touches(hazard, c)
    {
      match hazard
      case Above(height) =>
        return c.z > height;
      case Boxes(centres) =>
        for index := 0 to |centres|
          invariant forall i :: 0 <= i < index ==> !InBox(c, centres[i])
        {
          if InBox(c, centres[index]) {
            return true;
          }
        }
        return false;
    }

    /** The sample has been tracked: it joins the history. */
    ghost method Record(s: Sample, was: Progress, touched: bool)
      requires was == ProgressOf(stages, history) && touched == Collided(hazard, history)
      requires done <= |stages| && (done >= |stages| || Held(s))
      requires Pass(stages, Now(), s) == Pass(stages, was, s)
      requires collisionSeen == (touched || Collides(hazard, s))
      modifies this`history
      ensures Milestones() && history == old(history) + [s]
    {
      AllTried(s);
      CollidedAppend(hazard, history, s);
      hide Collided;
      hide Pass;
      history := history + [s];
      assert history[..|history| - 1] == old(history);
    }

    /**
     The verdict after a tracked sample: at once when a probe finds a failure; after completion when the
     attempt has failed, is achieved, or the settle time is over.
     */
    method Judge(attempt: nat, data: Field, s: Sample) returns (verdict: Option<Status>)
      requires Milestones() && !reported && history != [] && history[|history| - 1] == s
      requires data.Attempt? ==> data.attempt == attempt
      modifies this`reported, this`completionSeen, this`completionTime
      ensures Valid()
      ensures GateStep(oracle, data, old(GateAt(Some(attempt))), GateAt(Some(attempt)), verdict)
      ensures Judged(old(completionSeen), old(completionTime), attempt, data, s, verdict)
      ensures reported <==> verdict.Some?
    {
      hide ProgressOf;
      hide Collided;
      hide Landed;
      hide NearPlace;
      hide GateStep;
      hide Refreshed;
      ghost var gate := GateAt(Some(attempt));
      verdict := None;
      if data == FailureProbe(attempt, oracle) && (collisionSeen || wrongSeen) {
        reported := true;
        verdict := Some(VerdictNotAchieved);
      } else if !completionSeen && data == Completion(attempt, oracle) {
        completionSeen := true;
        completionTime := s.now;
      }
      if !reported && completionSeen {
        if collisionSeen || wrongSeen {
          reported := true;
          verdict := Some(VerdictNotAchieved);
        } else if done == |stages| && Landed(s, originZ) && NearPlace(s, arrival) {
          reported := true;
          verdict := Some(VerdictAchieved);
        } else if s.now - completionTime >= SETTLE_TIMEOUT {
          reported := true;
          verdict := Some(VerdictNotAchieved);
        }
      }
      GateAllows(oracle, data, gate, GateAt(Some(attempt)), verdict);
    }
  }

  // ---------- the loop ----------

  /** A verdict and the mission it is about. */
  datatype Ruling = Ruling(oracle: string, status: Status)

  class Evaluator {
    const originZ: real
    const combined: Mission
    const memory: Mission
    var activeAttempt: nat
    var hasAttempt: bool
    var barriers: seq<Point>   // in the world
    var panel: Point           // in the world

    ghost function Active(): Option<nat>
      reads this`activeAttempt, this`hasAttempt
    {
      if hasAttempt then Some(activeAttempt) else None
    }

    /** Courses and world are those of the attempt; the panel stands until the memory mission hides it. */
    ghost predicate Configured()
      reads this`activeAttempt, this`hasAttempt, this`barriers, this`panel
      reads combined`stages, combined`arrival, combined`hazard, memory`stages, memory`arrival, memory`hazard,
            memory`done
    {
      hasAttempt ==>
        && combined.stages == CombinedStages(CombinedOf(activeAttempt), originZ) && combined.arrival == COMBINED_ARRIVAL
        && barriers == Barriers(CombinedOf(activeAttempt)) && combined.hazard == Boxes(barriers)
        && memory.stages == MemoryStages(MemoryOf(activeAttempt), originZ) && memory.arrival == MEMORY_ARRIVAL
        && memory.hazard == Above(originZ + COLLISION_HEIGHT)
        && panel == Point(MemoryOf(activeAttempt).panelX, STATION_Y, if memory.done > HIDING then SUNK_Z
           else STANDING_Z)
    }

    ghost predicate Apart()
    {
      && combined != memory && combined.oracle == CombinedOracle() && memory.oracle == MemoryOracle()
      && combined.originZ == originZ && memory.originZ == originZ
    }

    ghost predicate Valid()
      reads this, combined, memory
    {
      Apart() && Configured() && combined.Valid() && memory.Valid()
    }

    constructor (originZ: real)
      ensures Valid() && !hasAttempt && fresh(combined) && fresh(memory)
      ensures combined.GateAt(Active()) == Gate(None, false, false) == memory.GateAt(Active())
    {
      this.originZ := originZ;
      combined := new Mission(CombinedOracle(), originZ);
      memory := new Mission(MemoryOracle(), originZ);
      activeAttempt, hasAttempt := 0, false;
      barriers, panel := [], Point(0.0, STATION_Y, SUNK_Z);
    }

    /** A new attempt: both courses and the world are set up. */
    method Configure(attempt: nat)
      requires Apart()
      modifies this, combined, memory
      ensures Valid() && hasAttempt && activeAttempt == attempt && combined.history == [] && memory.history == []
      ensures combined.GateAt(Active()) == Gate(Some(attempt), false, false) == memory.GateAt(Active())
    {
      hide CombinedOf;
      hide MemoryOf;
      hide CombinedStages;
      hide MemoryStages;
      hide Barriers;
      activeAttempt, hasAttempt := attempt, true;
      barriers := Barriers(CombinedOf(attempt));
      panel := Point(MemoryOf(attempt).panelX, STATION_Y, STANDING_Z);
      combined.Begin(CombinedStages(CombinedOf(attempt), originZ), COMBINED_ARRIVAL, Boxes(barriers));
      memory.Begin(MemoryStages(MemoryOf(attempt), originZ), MEMORY_ARRIVAL, Above(originZ + COLLISION_HEIGHT));
    }

    method TrackCombined(s: Sample)
      requires Apart() && Configured() && hasAttempt && combined.Milestones()
      modifies combined`done, combined`wrongSeen, combined`collisionSeen, combined`history
      ensures combined.Milestones() && combined.history == old(combined.history) + [s]
    {
      hide CombinedOf;
      hide MemoryOf;
      hide MemoryStages;
      hide Barriers;
      hide Pass;
      hide Collides;
      hide Collided;
      hide ProgressOf;
      hide Hit;
      ghost var was, touched := combined.Now(), combined.collisionSeen;
      InCourse(combined.stages, combined.history);
      combined.Advance(0, s);
      combined.Advance(1, s);
      combined.Touch(s);
      combined.Advance(2, s);
      combined.Record(s, was, touched);
    }

    ghost predicate PanelStands()
      reads this`panel, memory`done
    {
      panel.z == if memory.done > HIDING then SUNK_Z else STANDING_Z
    }

    /** From take-off to where the reference panel is hidden. */
    method TrackDeparture(s: Sample)
      requires |memory.stages| == 7 && memory.done <= 7 && PanelStands()
      modifies this`panel, memory`done, memory`wrongSeen, memory`collisionSeen
      ensures memory.done <= 7 && (memory.done > HIDING || memory.Held(s))
      ensures Pass(memory.stages, memory.Now(), s) == Pass(memory.stages, old(memory.Now()), s)
      ensures memory.collisionSeen == (old(memory.collisionSeen) || Collides(memory.hazard, s))
      ensures PanelStands() && panel == old(panel).(z := panel.z)
    {
      hide Pass;
      hide Collides;
      hide Hit;
      memory.Advance(0, s);
      memory.Touch(s);
      memory.Advance(1, s);
      var hidden := memory.done > HIDING;
      memory.Advance(HIDING, s);
      if !hidden && memory.done > HIDING {
        panel := panel.(z := SUNK_Z);
      }
    }

    /** The two decisions that rest on what was remembered. */
    method TrackDecisions(s: Sample)
      requires |memory.stages| == 7 && memory.done <= 7 && (memory.done > HIDING || memory.Held(s))
      modifies memory`done, memory`wrongSeen
      ensures memory.done <= 7 && (memory.done >= 7 || memory.Held(s))
      ensures memory.done > HIDING <==> old(memory.done) > HIDING
      ensures Pass(memory.stages, memory.Now(), s) == Pass(memory.stages, old(memory.Now()), s)
    {
      hide Pass;
      hide Hit;
      memory.Advance(3, s);
      memory.Advance(4, s);
      memory.Advance(5, s);
      memory.Advance(6, s);
    }

    method TrackMemory(s: Sample)
      requires Apart() && Configured() && hasAttempt && memory.Milestones()
      modifies this`panel, memory`done, memory`wrongSeen, memory`collisionSeen, memory`history
      ensures memory.Milestones() && memory.history == old(memory.history) + [s] && Configured()
    {
      hide CombinedOf;
      hide MemoryOf;
      hide CombinedStages;
      hide Barriers;
      hide Pass;
      hide Collides;
      hide Collided;
      hide ProgressOf;
      hide Mission.Held;
      ghost var was, touched := memory.Now(), memory.collisionSeen;
      InCourse(memory.stages, memory.history);
      hide MemoryStages;
      TrackDeparture(s);
      TrackDecisions(s);
      memory.Record(s, was, touched);
    }

    /** The status this iteration writes for an oracle. */
    ghost function For(r: Option<Ruling>, oracle: string): Option<Status> {
      if r.Some? && r.value.oracle == oracle then Some(r.value.status) else None
    }

    /** The samples a mission has tracked of the attempt that the field announces. */
    ghost function Tracked(m: Mission, data: Field): seq<Sample>
      reads m, this`activeAttempt, this`hasAttempt
    {
      if Refreshed(m.GateAt(Active()), data) != m.GateAt(Active()) then [] else m.history
    }

    /**
     One iteration. For each mission it is one step of its gate, so each is judged at most once in an attempt
     and only when a marker names it; the memory mission does not see the sample on which the combined one is judged.
     */
    method Step(data: Field, observation: Option<Sample>) returns (ruling: Option<Ruling>)
      requires Valid()
      modifies this, combined, memory
      ensures Valid()
      ensures GateStep(CombinedOracle(), data, old(combined.GateAt(Active())), combined.GateAt(Active()),
              For(ruling, CombinedOracle()))
      ensures GateStep(MemoryOracle(), data, old(memory.GateAt(Active())), memory.GateAt(Active()),
              For(ruling, MemoryOracle()))
      ensures ruling.Some? ==> observation.Some? && ruling.value.oracle in {CombinedOracle(), MemoryOracle()}
      ensures combined.history == old(Tracked(combined, data))
                + (if observation.Some? && hasAttempt && !Refreshed(old(combined.GateAt(Active())), data).reported
                   then [observation.value] else [])
      ensures memory.history == old(Tracked(memory, data))
                + (if observation.Some? && hasAttempt && !Refreshed(old(memory.GateAt(Active())), data).reported
                      && For(ruling, CombinedOracle()).None?
                   then [observation.value] else [])
      ensures observation.Some? && hasAttempt && !Refreshed(old(combined.GateAt(Active())), data).reported ==>
                combined.Judged(Refreshed(old(combined.GateAt(Active())), data).completionSeen,
                    old(combined.completionTime),
                                activeAttempt, data, observation.value, For(ruling, CombinedOracle()))
      ensures observation.Some? && hasAttempt && !Refreshed(old(memory.GateAt(Active())), data).reported
              && For(ruling, CombinedOracle()).None? ==>
                memory.Judged(Refreshed(old(memory.GateAt(Active())), data).completionSeen, old(memory.completionTime),
                              activeAttempt, data, observation.value, For(ruling, MemoryOracle()))
    {
      hide GateStep;
      hide Evaluator.Configured;
      hide Mission.Valid;
      hide Mission.Achieved;
      hide Mission.Due;
      hide CombinedOracle;
      hide MemoryOracle;
      ghost var gate, gate2 := combined.GateAt(Active()), memory.GateAt(Active());
      RefreshedGate(CombinedOracle(), data, gate);
      RefreshedGate(MemoryOracle(), data, gate2);
      ruling := None;
      if data.Attempt? && (!hasAttempt || data.attempt != activeAttempt) {
        Configure(data.attempt);
      }
      assert combined.GateAt(Active()) == Refreshed(gate, data) && memory.GateAt(Active()) == Refreshed(gate2, data);
      if !hasAttempt || observation.None? {
        return;
      }
      ruling := Judge(data, observation.value);
    }

    /** Both missions in turn; a verdict of the first ends the iteration. */
    method Judge(data: Field, s: Sample) returns (ruling: Option<Ruling>)
      requires Valid() && hasAttempt && (data.Attempt? ==> data.attempt == activeAttempt)
      modifies this`panel, combined, memory
      ensures Valid()
      ensures GateStep(CombinedOracle(), data, old(combined.GateAt(Active())), combined.GateAt(Active()),
              For(ruling, CombinedOracle()))
      ensures GateStep(MemoryOracle(), data, old(memory.GateAt(Active())), memory.GateAt(Active()),
              For(ruling, MemoryOracle()))
      ensures ruling.Some? ==> ruling.value.oracle in {CombinedOracle(), MemoryOracle()}
      ensures combined.history == old(combined.history) + (if !old(combined.reported) then [s] else [])
      ensures memory.history == old(memory.history)
                                + (if !old(memory.reported) && For(ruling, CombinedOracle()).None? then [s] else [])
      ensures !old(combined.reported) ==>
                combined.Judged(old(combined.completionSeen), old(combined.completionTime), activeAttempt, data, s,
                    For(ruling, CombinedOracle()))
      ensures !old(memory.reported) && For(ruling, CombinedOracle()).None? ==>
                memory.Judged(old(memory.completionSeen), old(memory.completionTime), activeAttempt, data, s,
                    For(ruling, MemoryOracle()))
    {
      DistinctOracles();
      hide GateStep;
      hide CombinedOracle;
      hide MemoryOracle;
      hide Mission.Milestones;
      hide Mission.Achieved;
      StandingStill(CombinedOracle(), data, combined.GateAt(Active()));
      StandingStill(MemoryOracle(), data, memory.GateAt(Active()));
      hide Refreshed;
      ruling := None;
      if !combined.reported {
        var status := JudgeCombined(data, s);
        if status.Some? {
          return Some(Ruling(combined.oracle, status.value));
        }
      }
      if !memory.reported {
        var status := JudgeMemory(data, s);
        if status.Some? {
          ruling := Some(Ruling(memory.oracle, status.value));
        }
      }
    }

    method JudgeCombined(data: Field, s: Sample) returns (verdict: Option<Status>)
      requires Valid() && hasAttempt && !combined.reported && (data.Attempt? ==> data.attempt == activeAttempt)
      modifies combined
      ensures Valid() && combined.history == old(combined.history) + [s]
      ensures GateStep(CombinedOracle(), data, old(combined.GateAt(Active())), combined.GateAt(Active()), verdict)
      ensures combined.Judged(old(combined.completionSeen), old(combined.completionTime), activeAttempt, data, s,
              verdict)
    {
      hide GateStep;
      hide Mission.Milestones;
      hide Mission.Achieved;
      hide Mission.Due;
      hide Mission.Judged;
      hide Mission.Timely;
      TrackCombined(s);
      verdict := combined.Judge(activeAttempt, data, s);
    }

    method JudgeMemory(data: Field, s: Sample) returns (verdict: Option<Status>)
      requires Valid() && hasAttempt && !memory.reported && (data.Attempt? ==> data.attempt == activeAttempt)
      modifies this`panel, memory
      ensures Valid() && memory.history == old(memory.history) + [s]
      ensures GateStep(MemoryOracle(), data, old(memory.GateAt(Active())), memory.GateAt(Active()), verdict)
      ensures memory.Judged(old(memory.completionSeen), old(memory.completionTime), activeAttempt, data, s, verdict)
    {
      hide GateStep;
      hide Mission.Milestones;
      hide Mission.Achieved;
      hide Mission.Due;
      hide Mission.Judged;
      hide Mission.Timely;
      TrackMemory(s);
      verdict := memory.Judge(activeAttempt, data, s);
    }

    lemma DistinctOracles()
      ensures CombinedOracle() != MemoryOracle()
    {
      assert |CombinedOracle()| != |MemoryOracle()|;
    }

    /** Without a new attempt in the field, a mission may leave its variables as they are. */
    lemma StandingStill(oracle: string, data: Field, g: Gate)
      requires data.Attempt? ==> g.attempt == Some(data.attempt)
      ensures GateStep(oracle, data, g, g, None)
    {
    }
  }

  /** An iteration of the loop is two steps of the protocol, one for each mission, on one reading of the field. */
  lemma IterationIsTwoDecisions(s: System, data: Field, g: Gate, g2: Gate, v: Option<Status>, v2: Option<Status>)
    requires data == s.field && CombinedOracle() !in s.writing && MemoryOracle() !in s.writing
    requires GateStep(CombinedOracle(), data, GateOf(s, CombinedOracle()), g, v)
    requires GateStep(MemoryOracle(), data, GateOf(s, MemoryOracle()), g2, v2)
    ensures Next(s, Decide(s, CombinedOracle(), g, v))
    ensures Next(Decide(s, CombinedOracle(), g, v), Decide(Decide(s, CombinedOracle(), g, v), MemoryOracle(), g2, v2))
  {
    hide GateStep;
    assert |CombinedOracle()| != |MemoryOracle()|;
    assert Decides(s, CombinedOracle(), g, v);
    var t := Decide(s, CombinedOracle(), g, v);
    assert Decides(t, MemoryOracle(), g2, v2);
  }
}
