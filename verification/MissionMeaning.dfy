/**
 What the milestones, hazards and landings of the missions are in metres and metres per second, and how the
 patterns of consecutive attempts fit together.
 */
module MissionMeaning {
  import opened Reals
  import opened Observations
  import opened Course
  import Combined = CombinedEvaluator
  import Autonomous = AutonomousEvaluator
  import Reactive = ReactiveEvaluator

  // ---------- places, contacts and landings ----------

  /** Inside the square of this half width around a point. */
  predicate Close(s: Sample, x: real, y: real, half: real) {
    x - half <= s.x <= x + half && y - half <= s.y <= y + half
  }

  /** A vehicle has landed at most 7 cm above its origin, no faster than 0.12 m/s along or across the ground. */
  lemma LandedMeans(s: Sample, origin: real)
    ensures Landed(s, origin) <==>
              s.z - origin <= 0.07 && Squared(s.vx) + Squared(s.vy) <= 0.0144 && -0.12 <= s.vz <= 0.12
  {
    assert MAX_LANDING_SPEED * MAX_LANDING_SPEED == 0.0144;
  }

  /** A contact touches a barrier within 7.4 cm of its axis and 55.4 cm of its centre. */
  predicate Beside(c: Point, box: Point) {
    && box.x - 0.074 <= c.x <= box.x + 0.074 && box.y - 0.074 <= c.y <= box.y + 0.074
    && box.z - 0.554 <= c.z <= box.z + 0.554
  }

  lemma BoxMeans(c: Point, box: Point)
    ensures InBox(c, box) <==> Beside(c, box)
  {
  }

  /** A sample collides exactly when one of its contacts is beside a barrier, or above the limit. */
  lemma CollidesMeans(hazard: Hazard, s: Sample)
    ensures Collides(hazard, s) <==>
              match hazard
              case Boxes(centres) =>
                exists i, k :: 0 <= i < |s.contacts| && 0 <= k < |centres| && Beside(s.contacts[i], centres[k])
              case Above(height) => exists i :: 0 <= i < |s.contacts| && s.contacts[i].z > height
  {
    hide Beside;
    hide InBox;
    forall c: Point, box: Point
      ensures InBox(c, box) <==> Beside(c, box)
    {
      BoxMeans(c, box);
    }
    if i :| 0 <= i < |s.contacts| && Touches(hazard, s.contacts[i]) {
      match hazard
      case Boxes(centres) =>
        var k :| 0 <= k < |centres| && InBox(s.contacts[i], centres[k]);
        assert Beside(s.contacts[i], centres[k]);
      case Above(height) =>
    }
    match hazard
    case Boxes(centres) =>
      if i, k :| 0 <= i < |s.contacts| && 0 <= k < |centres| && Beside(s.contacts[i], centres[k]) {
        assert InBox(s.contacts[i], centres[k]);
        assert Touches(hazard, s.contacts[i]);
      }
    case Above(height) =>
      if i :| 0 <= i < |s.contacts| && s.contacts[i].z > height {
        assert Touches(hazard, s.contacts[i]);
      }
  }

  // ---------- the combined mission ----------

  /** On one of the three ways out, when the left one counts before the right one and that one before the front. */
  predicate OnWay(s: Sample, way: Combined.Way) {
    var left, right := Close(s, 1.40, -0.30, 0.10), Close(s, 1.40, -0.90, 0.10);
    match way
    case Leftwards => left
    case Rightwards => right && !left
    case Onwards => Close(s, 1.70, -0.60, 0.10) && !left && !right
  }

  /** Lift by 20 cm, the decision point, and then the valid way out: any other one is the wrong one. */
  lemma CombinedMeans(p: Combined.CombinedPattern, origin: real, s: Sample)
    ensures var stages := Combined.CombinedStages(p, origin);
            && |stages| == 3
            && (Hit(stages[0], s) <==> s.z - origin >= 0.20)
            && (Hit(stages[1], s) <==> Close(s, 1.40, -0.60, 0.10))
            && (Hit(stages[2], s) <==> OnWay(s, Combined.Leftwards) || OnWay(s, Combined.Rightwards)
                                       || OnWay(s, Combined.Onwards))
            && (Hit(stages[2], s) && Right(stages[2], s) <==> OnWay(s, p.valid))
            && Right(stages[0], s) && Right(stages[1], s)
  {
    var left, right, front := Place(1.40, -0.30, 0.10), Place(1.40, -0.90, 0.10), Place(1.70, -0.60, 0.10);
    assert Combined.CombinedStages(p, origin)[2] == Fork([left, right, front], Combined.Index(p.valid));
    ChosenOfThree(left, right, front, s);
    hide Chosen;
  }

  lemma ChosenOfThree(a: Place, b: Place, c: Place, s: Sample)
    ensures Chosen([a, b, c], s) == if NearPlace(s, a) then 0 else if NearPlace(s, b) then 1
                                    else if NearPlace(s, c) then 2 else 3
  {
    hide NearPlace;
    ChosenOfTwo(b, c, s);
    assert [a, b, c][1..] == [b, c];
  }

  lemma ChosenOfTwo(a: Place, b: Place, s: Sample)
    ensures Chosen([a, b], s) == if NearPlace(s, a) then 0 else if NearPlace(s, b) then 1 else 2
  {
    hide NearPlace;
    assert [a, b][1..] == [b] && [b][1..] == [];
    assert Chosen([b], s) == if NearPlace(s, b) then 0 else 1;
  }

  // ---------- the memory mission ----------

  predicate OnSide(s: Sample, x: real, way: Combined.Way) {
    match way
    case Leftwards => Close(s, x, -1.25, 0.11)
    case Rightwards => Close(s, x, -1.75, 0.11) && !Close(s, x, -1.25, 0.11)
    case Onwards => false
  }

  /** Lift, the station, the line that hides the panel, and two rows with the side the panel told. */
  lemma MemoryMeans(p: Combined.MemoryPattern, origin: real, s: Sample)
    requires p.first != Combined.Onwards && p.second != Combined.Onwards
    ensures var stages := Combined.MemoryStages(p, origin);
            && |stages| == 7
            && (Hit(stages[0], s) <==> s.z - origin >= 0.20)
            && (Hit(stages[1], s) <==> Close(s, 0.0, -1.50, 0.13))
            && (Hit(stages[2], s) <==> s.x >= 0.12)
            && (Hit(stages[3], s) <==> Close(s, 0.65, -1.50, 0.11))
            && (Hit(stages[5], s) <==> Close(s, 1.20, -1.50, 0.11))
            && (Hit(stages[4], s) && Right(stages[4], s) <==> OnSide(s, 0.65, p.first))
            && (Hit(stages[6], s) && Right(stages[6], s) <==> OnSide(s, 1.20, p.second))
            && (Hit(stages[4], s) <==> Close(s, 0.65, -1.25, 0.11) || Close(s, 0.65, -1.75, 0.11))
            && (Hit(stages[6], s) <==> Close(s, 1.20, -1.25, 0.11) || Close(s, 1.20, -1.75, 0.11))
  {
    SidesMean(0.65, p.first, s);
    SidesMean(1.20, p.second, s);
    hide Combined.Sides;
    hide Right;
    hide Chosen;
    hide OnSide;
  }

  lemma SidesMean(x: real, way: Combined.Way, s: Sample)
    requires way != Combined.Onwards
    ensures var stage := Combined.Sides(x, way);
            && (Hit(stage, s) <==> Close(s, x, -1.25, 0.11) || Close(s, x, -1.75, 0.11))
            && (Hit(stage, s) && Right(stage, s) <==> OnSide(s, x, way))
  {
    ChosenOfTwo(Place(x, -1.25, 0.11), Place(x, -1.75, 0.11), s);
    hide Chosen;
  }

  /** The two panels tell opposite sides, which differ between the rows, and take turns. */
  lemma PanelsTakeTurns(attempt: nat)
    requires attempt >= 1
    ensures var p, q := Combined.MemoryOf(attempt), Combined.MemoryOf(attempt + 1);
            && p.first != p.second && q.first == p.second && q.second == p.first && p.small != q.small
            && (p.small <==> attempt % 2 == 1) && (p.small <==> p.first == Combined.Leftwards)
            && p.first != Combined.Onwards && p.second != Combined.Onwards
            && Combined.MemoryOf(0) == Combined.MemoryOf(1)
  {
  }

  /** Of every three consecutive attempts each has another valid way. */
  lemma WaysTakeTurns(attempt: nat)
    requires attempt >= 1
    ensures var p, q, r := Combined.CombinedOf(attempt), Combined.CombinedOf(attempt + 1),
                           Combined.CombinedOf(attempt + 2);
            && p.valid != q.valid && q.valid != r.valid && p.valid != r.valid
            && Combined.CombinedOf(attempt + 3) == p && Combined.CombinedOf(0) == Combined.CombinedOf(1)
  {
  }

  // ---------- the autonomous mission ----------

  /** Each milestone of the autonomous mission, in metres. */
  lemma AutonomousMeans(p: Autonomous.Pattern, origin: real, s: Sample)
    ensures Autonomous.Airborne(s, origin) <==> s.z - origin >= 0.20
    ensures Autonomous.AtStation(s) <==> Close(s, 0.0, -2.0, 0.13)
    ensures Autonomous.LeftLane(s) <==> s.y <= -2.35
    ensures Autonomous.AtJunction(s) <==> Close(s, 0.80, -2.50, 0.11)
    ensures forall x :: Autonomous.InRow(s, x) <==> Close(s, x, -2.50, 0.11) || Close(s, x, -2.85, 0.11)
    ensures forall x, blocked ::
              Autonomous.RowValid(s, x, blocked) <==> Close(s, x, if blocked then -2.85 else -2.50, 0.11)
    ensures Autonomous.OnAnyRoute(s) <==>
              Close(s, 1.10, -2.50, 0.11) || Close(s, 1.10, -2.15, 0.11) || Close(s, 1.10, -2.85, 0.11)
    ensures Autonomous.OnAnyRoute(s) ==>
              match Autonomous.ObservedRoute(s)
              case Forward => Close(s, 1.10, -2.50, 0.11)
              case Left => Close(s, 1.10, -2.15, 0.11)
              case Right => Close(s, 1.10, -2.85, 0.11)
    ensures Autonomous.InFinalBay(s, p) <==> Close(s, 1.40, if p.small then -2.15 else -2.85, 0.12)
    ensures Collides(Autonomous.Hazard(origin), s) <==>
              exists i :: 0 <= i < |s.contacts| && s.contacts[i].z - origin > 0.08
  {
    CollidesMeans(Autonomous.Hazard(origin), s);
  }

  /**
   The first row is always blocked, the second one exactly before the way to the right, and the parcel changes with
   every attempt: the strategies of four consecutive attempts all differ, and come back.
   */
  lemma StrategiesTakeTurns(attempt: nat, next: nat)
    requires 1 <= attempt <= next <= attempt + 4
    ensures var p, turn := Autonomous.PatternOf(attempt), (attempt - 1) % 4;
            && p.row1Blocked && (p.small <==> turn == 0 || turn == 2)
            && p.junction == (if p.row2Blocked then Autonomous.Right else Autonomous.Forward)
            && (p.row2Blocked <==> turn >= 2)
    ensures Autonomous.PatternOf(attempt) == Autonomous.PatternOf(next) <==> next == attempt || next == attempt + 4
    ensures Autonomous.PatternOf(0) == Autonomous.PatternOf(1)
  {
    Remainders(attempt - 1, next - attempt);
  }

  // ---------- the reactive mission ----------

  /** How many of the first rows are blocked. */
  function Blocked(blocked: seq<bool>, row: nat): nat
    requires row <= |blocked|
  {
    if row == 0 then 0 else Blocked(blocked, row - 1) + if blocked[row - 1] then 1 else 0
  }

  lemma {:induction false} RowIs(blocked: seq<bool>, row: nat)
    requires row <= |blocked|
    ensures Reactive.RowY(blocked, row) == 1.60 + 0.30 * Blocked(blocked, row) as real
  {
    if row > 0 {
      RowIs(blocked, row - 1);
    }
  }

  /**
   Each row: the barrier stands 15 cm before the line of its checkpoint, right in the way when the row is blocked,
   and is shown from the moment the row is the next one. The checkpoint is one step of 30 cm on, and one aside for
   every blocked row passed.
   */
  lemma RowMeans(blocked: seq<bool>, count: nat, row: nat)
    requires row < |blocked|
    ensures var place, barrier := Reactive.Checkpoint(blocked, row), Reactive.Barrier(blocked, count, row);
            && place.x == 1.20 + 0.30 * row as real && place.x - barrier.x == 0.15
            && place.y == 1.60 + 0.30 * Blocked(blocked, row + 1) as real && place.tolerance == 0.10
            && place.y - barrier.y == (if blocked[row] then 0.30 else 0.0)
            && (barrier.z == 0.55 || barrier.z == -1.00)
            && (barrier.z == 0.55 <==> blocked[row] && row <= count)
            && (row > 0 ==> barrier.y == Reactive.Checkpoint(blocked, row - 1).y)
  {
    RowIs(blocked, row);
    RowIs(blocked, row + 1);
  }

  /** Attempts two apart begin alike and go on differently; the patterns of four consecutive ones all differ. */
  lemma RowsTakeTurns(attempt: nat, next: nat)
    requires 1 <= attempt <= next <= attempt + 4
    ensures var rows, turn := Reactive.BlockedOf(attempt), (attempt - 1) % 4;
            && (rows[0] <==> turn == 0 || turn == 2) && (rows[1] <==> turn == 1 || turn == 2)
            && (rows[2] <==> turn == 0 || turn == 3)
    ensures Reactive.BlockedOf(attempt) == Reactive.BlockedOf(next) <==> next == attempt || next == attempt + 4
    ensures Reactive.BlockedOf(0) == Reactive.BlockedOf(1)
  {
    Remainders(attempt - 1, next - attempt);
    if attempt < next < attempt + 4 {
      RowsDiffer((attempt - 1) % 4, (next - 1) % 4);
    }
  }

  lemma Remainders(n: nat, k: nat)
    requires k <= 4
    ensures (n + k) % 4 == n % 4 <==> k == 0 || k == 4
  {
  }

  lemma RowsDiffer(a: nat, b: nat)
    requires a < 4 && b < 4 && a != b
    ensures Reactive.PATTERNS[a] != Reactive.PATTERNS[b]
  {
    var p, q := Reactive.PATTERNS[a], Reactive.PATTERNS[b];
    assert p[0] != q[0] || p[1] != q[1] || p[2] != q[2];
  }
}
