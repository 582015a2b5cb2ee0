/**
 The evaluator of the reactive activity: three rows, each revealed when the checkpoint of the row before
 it is crossed. At most one checkpoint is crossed in one sample.
 */
module ReactiveEvaluator {
  import opened Options
  import opened Reals
  import opened Observations
  import opened ActivityBroker
  import opened ActivityProtocol
  import opened Course

  function Oracle(): string { "progression-reactive-v1" }
  const ROWS := 3
  const AIRBORNE_DELTA := 0.20
  const TOLERANCE := 0.10
  const START_X := 0.90
  const START_Y := 1.60
  const STEP_X := 0.30
  const STEP_Y := 0.30
  const BARRIER_OFFSET_X := 0.15
  const STANDING_Z := 0.55
  const SUNK_Z := -1.00

  const PATTERNS := [[true, false, true], [false, true, false], [true, true, false], [false, false, true]]

  function BlockedOf(attempt: nat): (blocked: seq<bool>)
    ensures |blocked| == ROWS
  {
    PATTERNS[(if attempt > 0 then attempt - 1 else 0) % 4]
  }

  // ---------- the course ----------

  /** The lateral position before a row: every blocked row before it was passed by one step aside. */
  function RowY(blocked: seq<bool>, row: nat): real
    requires row <= |blocked|
  {
    if row == 0 then START_Y else RowY(blocked, row - 1) + if blocked[row - 1] then STEP_Y else 0.0
  }

  function DecisionX(row: nat): real {
    START_X + STEP_X * row as real
  }

  function Checkpoint(blocked: seq<bool>, row: nat): Place
    requires row < |blocked|
  {
    Place(DecisionX(row) + STEP_X, RowY(blocked, row + 1), TOLERANCE)
  }

  /** Only rows up to the one being decided are shown, and of those only the blocked ones. */
  function Barrier(blocked: seq<bool>, count: nat, row: nat): Point
    requires row < |blocked|
  {
    Point(DecisionX(row) + BARRIER_OFFSET_X, RowY(blocked, row), if blocked[row] && row <= count then STANDING_Z
        else SUNK_Z)
  }

  function World(blocked: seq<bool>, count: nat): (world: seq<Point>)
    ensures |world| == |blocked|
  {
    seq(|blocked|, row requires 0 <= row < |blocked| => Barrier(blocked, count, row))
  }

  predicate Airborne(h: seq<Sample>, origin: real) {
    exists i :: 0 <= i < |h| && Hit(Lift(origin + AIRBORNE_DELTA), h[i])
  }

  /** How many checkpoints the samples have crossed. */
  function Count(blocked: seq<bool>, origin: real, h: seq<Sample>): (n: nat)
    ensures n <= |blocked|
  {
    if h == [] then 0 else
      var n := Count(blocked, origin, h[..|h| - 1]);
      if n < |blocked| && Airborne(h, origin) && NearPlace(h[|h| - 1], Checkpoint(blocked, n)) then n + 1 else n
  }

  /** The k-th sample touched a barrier of the world as it stood before that sample. */
  predicate CollidesAt(blocked: seq<bool>, origin: real, h: seq<Sample>, k: nat)
    requires k < |h|
  {
    Collides(Boxes(World(blocked, Count(blocked, origin, h[..k]))), h[k])
  }

  predicate Struck(blocked: seq<bool>, origin: real, h: seq<Sample>) {
    exists k :: 0 <= k < |h| && CollidesAt(blocked, origin, h, k)
  }

  // ---------- what the count means ----------

  /** The search for a checkpoint starts at take-off, or after the sample that crossed the one before it. */
  function From(air: nat, at: seq<nat>, i: nat): nat
    requires i <= |at|
  {
    if i == 0 then air else at[i - 1] + 1
  }

  /** Take-off was first seen at this position; past the end when there was none. */
  predicate TakeOff(h: seq<Sample>, origin: real, air: nat) {
    air <= |h| && NoHit(Lift(origin + AIRBORNE_DELTA), h[..air], 0)
        && (air < |h| ==> Hit(Lift(origin + AIRBORNE_DELTA), h[air]))
  }

  predicate Crossed(blocked: seq<bool>, h: seq<Sample>, air: nat, at: seq<nat>, i: nat)
    requires i < |at| && i < |blocked|
  {
    FirstHit(At(Checkpoint(blocked, i)), h, From(air, at, i), at[i])
  }

  predicate Crossings(blocked: seq<bool>, h: seq<Sample>, air: nat, at: seq<nat>) {
    |at| <= |blocked| && forall i :: 0 <= i < |at| ==> Crossed(blocked, h, air, at, i)
  }

  /** Which checkpoints were crossed, where, and that the next one was not. */
  predicate Explains(blocked: seq<bool>, origin: real, h: seq<Sample>, air: nat, at: seq<nat>) {
    && TakeOff(h, origin, air) && Crossings(blocked, h, air, at) && From(air, at, |at|) <= |h|
    && (|at| < |blocked| ==> NoHit(At(Checkpoint(blocked, |at|)), h, From(air, at, |at|)))
  }

  lemma TakeOffGrows(h: seq<Sample>, s: Sample, origin: real, air: nat) returns (next: nat)
    requires TakeOff(h, origin, air)
    ensures TakeOff(h + [s], origin, next) && (air < |h| ==> next == air) && next >= air
    ensures next <= |h| <==> Airborne(h + [s], origin)
    ensures air == |h| ==> next >= |h|
  {
    hide Hit;
    var all := h + [s];
    next := if air == |h| && !Hit(Lift(origin + AIRBORNE_DELTA), s) then |h| + 1 else air;
    assert all[..next] == (if next == |h| + 1 then all else h[..next]);
    if next <= |h| {
      assert Hit(Lift(origin + AIRBORNE_DELTA), all[next]);
    }
  }

  lemma CrossingsGrow(blocked: seq<bool>, h: seq<Sample>, s: Sample, air: nat, at: seq<nat>, next: nat)
    requires Crossings(blocked, h, air, at) && (next == air || at == [])
    ensures Crossings(blocked, h + [s], next, at)
  {
    hide Checkpoint;
    forall i: nat | i < |at|
      ensures Crossed(blocked, h + [s], next, at, i)
    {
      assert Crossed(blocked, h, air, at, i);
      hide FirstHit;
      FirstHitGrows(At(Checkpoint(blocked, i)), h, s, From(air, at, i), at[i]);
    }
  }

  lemma CrossingsStep(blocked: seq<bool>, h: seq<Sample>, air: nat, at: seq<nat>, k: nat)
    requires Crossings(blocked, h, air, at) && |at| < |blocked|
    requires FirstHit(At(Checkpoint(blocked, |at|)), h, From(air, at, |at|), k)
    ensures Crossings(blocked, h, air, at + [k])
  {
    hide Checkpoint;
    hide FirstHit;
    var next := at + [k];
    forall i: nat | i < |next|
      ensures Crossed(blocked, h, air, next, i)
    {
      assert From(air, next, i) == From(air, at, i);
      if i < |at| {
        assert Crossed(blocked, h, air, at, i);
      }
    }
  }

  /** Some account of the samples has this many crossings. */
  ghost predicate Accounted(blocked: seq<bool>, origin: real, h: seq<Sample>, n: nat) {
    exists air: nat, at: seq<nat> :: Explains(blocked, origin, h, air, at) && |at| == n
  }

  /**
   The count is the number of checkpoints crossed one after another from take-off on, each where it was
   first met in a sample of its own.
   */
  lemma {:induction false} CountIsCrossings(blocked: seq<bool>, origin: real, h: seq<Sample>)
    ensures Accounted(blocked, origin, h, Count(blocked, origin, h))
  {
    if h == [] {
      assert Explains(blocked, origin, h, 0, []);
    } else {
      hide Airborne;
      hide Crossings;
      hide NearPlace;
      var front, s := h[..|h| - 1], h[|h| - 1];
      assert h == front + [s];
      CountIsCrossings(blocked, origin, front);
      var was: nat, at: seq<nat> :| Explains(blocked, origin, front, was, at) && |at| == Count(blocked, origin, front);
      AirborneFirst(blocked, front, was, at);
      var air := TakeOffGrows(front, s, origin, was);
      hide TakeOff;
      CrossingsGrow(blocked, front, s, was, at, air);
      if |at| < |blocked| && air <= |front| {
        LastHit(At(Checkpoint(blocked, |at|)), front, s, From(air, at, |at|));
        hide FirstHit;
        if NearPlace(s, Checkpoint(blocked, |at|)) {
          CrossingsStep(blocked, h, air, at, |front|);
          at := at + [|front|];
        }
      }
      assert Explains(blocked, origin, h, air, at);
    }
  }

  /** No checkpoint is crossed before take-off. */
  lemma AirborneFirst(blocked: seq<bool>, h: seq<Sample>, air: nat, at: seq<nat>)
    requires Crossings(blocked, h, air, at)
    ensures at != [] ==> air < |h|
  {
    if at != [] {
      assert Crossed(blocked, h, air, at, 0);
    }
  }

  lemma {:induction false} SameCrossings(blocked: seq<bool>, h: seq<Sample>, air: nat, at: seq<nat>, other: seq<nat>)
    requires Crossings(blocked, h, air, at) && Crossings(blocked, h, air, other) && |at| <= |other|
    ensures at == other[..|at|]
  {
    hide Checkpoint;
    hide Hit;
    if |at| > 0 {
      var n := |at| - 1;
      CrossingsPrefix(blocked, h, air, at, n);
      SameCrossings(blocked, h, air, at[..n], other);
      assert Crossed(blocked, h, air, at, n) && Crossed(blocked, h, air, other, n);
      assert From(air, at, n) == From(air, other, n);
      assert at == at[..n] + [at[n]];
    }
  }

  lemma CrossingsPrefix(blocked: seq<bool>, h: seq<Sample>, air: nat, at: seq<nat>, n: nat)
    requires Crossings(blocked, h, air, at) && n <= |at|
    ensures Crossings(blocked, h, air, at[..n])
  {
    hide FirstHit;
    hide Checkpoint;
    forall i: nat | i < n
      ensures Crossed(blocked, h, air, at[..n], i)
    {
      assert Crossed(blocked, h, air, at, i);
      assert From(air, at[..n], i) == From(air, at, i);
    }
  }

  lemma BeforeTakeOff(h: seq<Sample>, origin: real, air: nat, i: nat)
    requires TakeOff(h, origin, air) && i < air
    ensures !TakeOff(h, origin, i)
  {
    hide Hit;
    assert h[..air][i] == h[i];
  }

  lemma CrossingsGoOn(blocked: seq<bool>, origin: real, h: seq<Sample>, air: nat, at: seq<nat>, other: seq<nat>)
    requires Crossings(blocked, h, air, other) && at < other
    ensures !Explains(blocked, origin, h, air, at)
  {
    hide Hit;
    hide Checkpoint;
    assert Crossed(blocked, h, air, other, |at|);
  }

  lemma CrossingsStop(blocked: seq<bool>, origin: real, h: seq<Sample>, air: nat, at: seq<nat>, other: seq<nat>)
    requires Explains(blocked, origin, h, air, at) && Crossings(blocked, h, air, other)
    ensures |other| <= |at|
  {
    if |at| < |other| {
      SameCrossings(blocked, h, air, at, other);
      CrossingsGoOn(blocked, origin, h, air, at, other);
    }
  }

  /** There is only one such account of the samples, so it determines the count. */
  lemma CountDetermined(blocked: seq<bool>, origin: real, h: seq<Sample>, air: nat, at: seq<nat>)
    ensures Explains(blocked, origin, h, air, at) ==> |at| == Count(blocked, origin, h)
  {
    if Explains(blocked, origin, h, air, at) {
      CountIsCrossings(blocked, origin, h);
      var air2: nat, at2: seq<nat> :| Explains(blocked, origin, h, air2, at2) && |at2| == Count(blocked, origin, h);
      if air < air2 {
        BeforeTakeOff(h, origin, air2, air);
      } else if air2 < air {
        BeforeTakeOff(h, origin, air, air2);
      }
      CrossingsStop(blocked, origin, h, air, at, at2);
      CrossingsStop(blocked, origin, h, air, at2, at);
    }
  }

  lemma CountGrows(blocked: seq<bool>, origin: real, h: seq<Sample>, s: Sample)
    ensures var n := Count(blocked, origin, h);
            Count(blocked, origin, h + [s]) ==
            if n < |blocked| && Airborne(h + [s], origin) && NearPlace(s, Checkpoint(blocked, n)) then n + 1 else n
  {
    assert (h + [s])[..|h|] == h;
  }

  lemma StruckGrows(blocked: seq<bool>, origin: real, h: seq<Sample>, s: Sample)
    ensures Struck(blocked, origin, h + [s]) <==>
              Struck(blocked, origin, h) || Collides(Boxes(World(blocked, Count(blocked, origin, h))), s)
  {
    hide Collides;
    hide Count;
    hide World;
    var all := h + [s];
    assert all[..|h|] == h;
    forall k | 0 <= k < |h|
      ensures CollidesAt(blocked, origin, all, k) == CollidesAt(blocked, origin, h, k)
    {
      assert all[..k] == h[..k];
    }
    if Collides(Boxes(World(blocked, Count(blocked, origin, h))), s) {
      assert CollidesAt(blocked, origin, all, |h|);
    }
    if k :| 0 <= k < |h| && CollidesAt(blocked, origin, h, k) {
      assert CollidesAt(blocked, origin, all, k);
    }
  }

  // ---------- the evaluator ----------

  class Evaluator {
    const originZ: real
    const barriers: array<Point>
    const checkpoints: array<Place>
    const blocked: array<bool>
    var activeAttempt: nat
    var hasAttempt: bool
    var arrivalY: real
    var airborneSeen: bool
    var checkpointIndex: nat
    var collisionSeen: bool
    var completionSeen: bool
    var completionTime: real
    var reported: bool
    ghost var history: seq<Sample>

    predicate Shaped()
    {
      barriers.Length == ROWS && checkpoints.Length == ROWS && blocked.Length == ROWS
    }

    ghost function Pattern(): (p: seq<bool>)
      reads this`activeAttempt
      ensures |p| == ROWS
    {
      BlockedOf(activeAttempt)
    }

    /** The course is that of the attempt, and exactly the rows it is time to see are shown. */
    ghost predicate Configured()
      requires Shaped()
      reads this`activeAttempt, this`hasAttempt, this`arrivalY, this`checkpointIndex, barriers, checkpoints, blocked
    {
      hasAttempt ==>
        && blocked[..] == Pattern() && barriers[..] == World(Pattern(), checkpointIndex)
        && (forall row :: 0 <= row < ROWS ==> checkpoints[row] == Checkpoint(Pattern(), row))
        && arrivalY == RowY(Pattern(), ROWS)
    }

    ghost predicate Milestones()
      reads this`activeAttempt, this`airborneSeen, this`checkpointIndex, this`collisionSeen, this`history
    {
      && airborneSeen == Airborne(history, originZ)
      && checkpointIndex == Count(Pattern(), originZ, history)
      && collisionSeen == Struck(Pattern(), originZ, history)
    }

    ghost predicate Timely()
      reads this`history, this`completionSeen, this`completionTime, this`reported
    {
      completionSeen && !reported ==> history != [] && history[|history| - 1].now - completionTime < SETTLE_TIMEOUT
    }

    ghost predicate Valid()
      reads this, barriers, checkpoints, blocked
    {
      Shaped() && Configured() && Milestones() && Timely()
    }

    ghost function GateNow(): Gate
      reads this`activeAttempt, this`hasAttempt, this`completionSeen, this`reported
    {
      Gate(if hasAttempt then Some(activeAttempt) else None, completionSeen, reported)
    }

    ghost predicate Failed()
      reads this`activeAttempt, this`history
    {
      Struck(Pattern(), originZ, history)
    }

    /** Every checkpoint crossed in its turn, no barrier touched, and landed at the last checkpoint. */
    ghost predicate Achieved(s: Sample)
      reads this`activeAttempt, this`history
    {
      !Failed() && Count(Pattern(), originZ, history) == ROWS && Landed(s, originZ)
          && NearPlace(s, Checkpoint(Pattern(), ROWS - 1))
    }

    constructor (originZ: real)
      ensures Valid() && GateNow() == Gate(None, false, false) && fresh(barriers) && fresh(checkpoints)
              && fresh(blocked)
    {
      this.originZ := originZ;
      barriers := new Point[ROWS](_ => Point(0.0, 0.0, 0.0));
      checkpoints := new Place[ROWS](_ => Place(0.0, 0.0, TOLERANCE));
      blocked := new bool[ROWS](_ => false);
      activeAttempt, hasAttempt, arrivalY := 0, false, START_Y;
      airborneSeen, checkpointIndex, collisionSeen := false, 0, false;
      completionSeen, completionTime, reported := false, 0.0, false;
      history := [];
    }

    /** The rows of a new attempt, laid out one after another; only the first is shown. */
    method Configure(attempt: nat)
      requires Shaped()
      modifies this, barriers, checkpoints, blocked
      ensures Valid() && GateNow() == Gate(Some(attempt), false, false) && history == []
    {
      activeAttempt, hasAttempt := attempt, true;
      hide BlockedOf;
      hide RowY;
      hide World;
      hide Checkpoint;
      Block(BlockedOf(attempt));
      Lay();
      Forget();
    }

    method Block(pattern: seq<bool>)
      requires blocked.Length == |pattern|
      modifies blocked
      ensures blocked[..] == pattern
    {
      for row := 0 to |pattern|
        invariant blocked[..row] == pattern[..row]
      {
        blocked[row] := pattern[row];
      }
    }

    method Forget()
      modifies this`airborneSeen, this`checkpointIndex, this`collisionSeen, this`completionSeen, this`completionTime,
               this`reported, this`history
      ensures Milestones() && history == [] && checkpointIndex == 0 && !completionSeen && !reported
    {
      airborneSeen, checkpointIndex, collisionSeen := false, 0, false;
      completionSeen, completionTime, reported := false, 0.0, false;
      history := [];
    }

    method Lay()
      requires Shaped() && blocked[..] == Pattern()
      modifies this`arrivalY, barriers, checkpoints
      ensures barriers[..] == World(Pattern(), 0) && arrivalY == RowY(Pattern(), ROWS)
      ensures forall row :: 0 <= row < ROWS ==> checkpoints[row] == Checkpoint(Pattern(), row)
    {
      hide BlockedOf;
      var y := START_Y;
      for row := 0 to ROWS
        invariant y == RowY(Pattern(), row)
        invariant forall k :: 0 <= k < row ==> barriers[k] == Barrier(Pattern(), 0, k)
        invariant forall k :: 0 <= k < row ==> checkpoints[k] == Checkpoint(Pattern(), k)
      {
        assert blocked[row] == blocked[..][row];
        var x := DecisionX(row);
        barriers[row] := Point(x + BARRIER_OFFSET_X, y, if row == 0 && blocked[row] then STANDING_Z else SUNK_Z);
        if blocked[row] {
          y := y + STEP_Y;
        }
        checkpoints[row] := Place(x + STEP_X, y, TOLERANCE);
      }
      arrivalY := y;
    }

    method Touch(s: Sample)
      modifies this`collisionSeen
      ensures collisionSeen == (old(collisionSeen) || Collides(Boxes(barriers[..]), s))
    {
      hide InBox;
      for index := 0 to |s.contacts|
        invariant collisionSeen == (old(collisionSeen) || exists i ::
                    0 <= i < index && Touches(Boxes(barriers[..]), s.contacts[i]))
      {
        if !collisionSeen {
          collisionSeen := InBarrier(s.contacts[index]);
        }
      }
    }

    method InBarrier(c: Point) returns (inside: bool)
      ensures inside == Touches(Boxes(barriers[..]), c)
    {
      hide InBox;
      for row := 0 to barriers.Length
        invariant forall i :: 0 <= i < row ==> !InBox(c, barriers[i])
      {
        if InBox(c, barriers[row]) {
          assert barriers[..][row] == barriers[row];
          return true;
        }
      }
      return false;
    }

    /** Crossing a checkpoint shows the next row. */
    method Cross(s: Sample)
      requires Shaped() && hasAttempt && Configured() && checkpointIndex <= ROWS
      modifies this`checkpointIndex, barriers
      ensures Configured()
      ensures checkpointIndex == if airborneSeen && old(checkpointIndex) < ROWS
              && NearPlace(s, Checkpoint(Pattern(), old(checkpointIndex)))
                                 then old(checkpointIndex) + 1 else old(checkpointIndex)
    {
      hide BlockedOf;
      hide NearPlace;
      hide RowY;
      ghost var was := barriers[..];
      if airborneSeen && checkpointIndex < ROWS && NearPlace(s, checkpoints[checkpointIndex]) {
        checkpointIndex := checkpointIndex + 1;
        if checkpointIndex < ROWS {
          assert blocked[checkpointIndex] == blocked[..][checkpointIndex];
          var row := barriers[checkpointIndex];
          assert row == was[checkpointIndex];
          barriers[checkpointIndex] := row.(z := if blocked[checkpointIndex] then STANDING_Z else SUNK_Z);
        }
        assert barriers[..] == World(Pattern(), checkpointIndex) by {
          forall k | 0 <= k < ROWS
            ensures barriers[..][k] == Barrier(Pattern(), checkpointIndex, k)
          {
            assert was[k] == Barrier(Pattern(), old(checkpointIndex), k);
          }
        }
      }
    }

    /** Milestones after one more sample. */
    method Track(s: Sample)
      requires Shaped() && hasAttempt && Configured() && Milestones()
      modifies this`airborneSeen, this`checkpointIndex, this`collisionSeen, this`history, barriers
      ensures Configured() && Milestones() && history == old(history) + [s]
    {
      hide BlockedOf;
      AirborneGrows(history, s);
      StruckGrows(Pattern(), originZ, history, s);
      CountGrows(Pattern(), originZ, history, s);
      hide Airborne;
      hide Struck;
      hide Count;
      hide Checkpoint;
      hide NearPlace;
      hide Collides;
      ShownBarriers();
      hide World;
      hide Evaluator.Configured;
      history := history + [s];
      if s.z >= originZ + AIRBORNE_DELTA {
        airborneSeen := true;
      }
      Touch(s);
      Cross(s);
    }

    lemma ShownBarriers()
      requires Shaped() && hasAttempt && Configured()
      ensures barriers[..] == World(Pattern(), checkpointIndex)
    {
    }

    lemma AirborneGrows(h: seq<Sample>, s: Sample)
      ensures Airborne(h + [s], originZ) <==> Airborne(h, originZ) || s.z >= originZ + AIRBORNE_DELTA
    {
      var all := h + [s];
      assert all[|h|] == s;
      assert forall i :: 0 <= i < |h| ==> all[i] == h[i];
    }

    /** A verdict is due: a probe finds a failure, or a completed attempt is decided or its settle time is over. */
    ghost predicate Due(data: Field, s: Sample)
      reads this
    {
      || (data == FailureProbe(activeAttempt, Oracle()) && Failed())
      || (completionSeen && (Failed() || Achieved(s) || s.now - completionTime >= SETTLE_TIMEOUT))
    }

    /**
     One step on the field content and the observation it read: at most one verdict in an attempt, `achieved`
     exactly for a course crossed in order that ends landed at its last checkpoint, and given exactly when due.
     */
    method Step(data: Field, observation: Option<Sample>) returns (verdict: Option<Status>)
      requires Valid()
      modifies this, barriers, checkpoints, blocked
      ensures Valid()
      ensures GateStep(Oracle(), data, old(GateNow()), GateNow(), verdict)
      ensures history == (if Refreshed(old(GateNow()), data) != old(GateNow()) then [] else old(history))
                         + (if observation.Some? && hasAttempt && !Refreshed(old(GateNow()), data).reported
                             then [observation.value] else [])
      ensures verdict.Some? ==> observation.Some?
                                && verdict.value == if Achieved(observation.value) then VerdictAchieved
                                   else VerdictNotAchieved
      ensures observation.Some? && hasAttempt && !Refreshed(old(GateNow()), data).reported ==>
                && (verdict.Some? <==> Due(data, observation.value))
                && (completionSeen <==>
                     Refreshed(old(GateNow()), data).completionSeen || data == Completion(activeAttempt, Oracle()))
      ensures completionSeen ==>
                if Refreshed(old(GateNow()), data).completionSeen then completionTime == old(completionTime)
                else observation.Some? && completionTime == observation.value.now
    {
      hide GateStep;
      hide Oracle;
      hide Evaluator.Configured;
      hide Evaluator.Milestones;
      hide Evaluator.Achieved;
      ghost var gate := GateNow();
      RefreshedGate(Oracle(), data, gate);
      if data.Attempt? && (!hasAttempt || data.attempt != activeAttempt) {
        Configure(data.attempt);
      }
      assert GateNow() == Refreshed(gate, data);
      if !hasAttempt || reported || observation.None? {
        return None;
      }
      Track(observation.value);
      verdict := Judge(data, observation.value);
    }

    /** The verdict after a tracked sample; a probe is only looked at before completion. */
    method Judge(data: Field, s: Sample) returns (verdict: Option<Status>)
      requires Shaped() && hasAttempt && Configured() && Milestones() && !reported
      requires history != [] && history[|history| - 1] == s
      requires data.Attempt? ==> data.attempt == activeAttempt
      modifies this`completionSeen, this`completionTime, this`reported
      ensures Valid()
      ensures GateStep(Oracle(), data, old(GateNow()), GateNow(), verdict)
      ensures completionSeen <==> old(completionSeen) || data == Completion(activeAttempt, Oracle())
      ensures completionSeen ==> completionTime == if old(completionSeen) then old(completionTime) else s.now
      ensures verdict.Some? <==> Due(data, s)
      ensures verdict.Some? ==> verdict.value == if Achieved(s) then VerdictAchieved else VerdictNotAchieved
      ensures reported <==> verdict.Some?
    {
      hide GateStep;
      hide Oracle;
      hide Refreshed;
      hide BlockedOf;
      hide Count;
      hide Struck;
      hide Airborne;
      hide World;
      hide Landed;
      hide NearPlace;
      ghost var gate := GateNow();
      verdict := Decide(data, s);
      reported := verdict.Some?;
      GateAllows(Oracle(), data, gate, GateNow(), verdict);
    }

    method Decide(data: Field, s: Sample) returns (verdict: Option<Status>)
      requires Shaped() && hasAttempt && Configured() && Milestones()
      modifies this`completionSeen, this`completionTime
      ensures completionSeen <==> old(completionSeen) || data == Completion(activeAttempt, Oracle())
      ensures completionSeen ==> completionTime == if old(completionSeen) then old(completionTime) else s.now
      ensures verdict.Some? <==> Due(data, s)
      ensures verdict.Some? ==> verdict.value == if Achieved(s) then VerdictAchieved else VerdictNotAchieved
    {
      hide Oracle;
      hide BlockedOf;
      hide Struck;
      hide World;
      hide Landed;
      hide RowY;
      ArrivalIsLast();
      hide Count;
      hide Airborne;
      if !completionSeen {
        if data == FailureProbe(activeAttempt, Oracle()) && collisionSeen {
          return Some(VerdictNotAchieved);
        }
        if data != Completion(activeAttempt, Oracle()) {
          return None;
        }
        completionSeen := true;
        completionTime := s.now;
      }
      if collisionSeen {
        return Some(VerdictNotAchieved);
      }
      var inArrival := Near(s, START_X + STEP_X * ROWS as real, arrivalY, TOLERANCE);
      if airborneSeen && checkpointIndex == ROWS && Landed(s, originZ) && inArrival {
        return Some(VerdictAchieved);
      }
      return if s.now - completionTime >= SETTLE_TIMEOUT then Some(VerdictNotAchieved) else None;
    }

    /** The arrival is the last checkpoint, and whoever crossed a checkpoint has taken off. */
    lemma ArrivalIsLast()
      requires Milestones()
      ensures Checkpoint(Pattern(), ROWS - 1) == Place(START_X
              + STEP_X * ROWS as real, RowY(Pattern(), ROWS), TOLERANCE)
      ensures checkpointIndex > 0 ==> airborneSeen
    {
      hide RowY;
      CrossedIsAirborne(Pattern(), originZ, history);
    }
  }

  lemma {:induction false} CrossedIsAirborne(blocked: seq<bool>, origin: real, h: seq<Sample>)
    ensures Count(blocked, origin, h) > 0 ==> Airborne(h, origin)
  {
    if h != [] {
      CrossedIsAirborne(blocked, origin, h[..|h| - 1]);
    }
  }
}
