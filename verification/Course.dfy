/**
 Courses of milestones that must be met in order, some of them forks with one right way out. The state
 kept by the evaluators is specified by where the milestones are first met in the samples of an attempt.
 */
module Course {
  import opened Reals
  import opened Observations

  datatype Place = Place(x: real, y: real, tolerance: real)

  datatype Stage =
    | Lift(height: real)
    | At(place: Place)
    | Past(x: real)
    | Fork(options: seq<Place>, valid: nat)

  predicate NearPlace(s: Sample, p: Place) {
    Near(s, p.x, p.y, p.tolerance)
  }

  /** The first option that is near; the number of options when there is none. */
  function Chosen(options: seq<Place>, s: Sample): (i: nat)
    ensures i <= |options| && (i < |options| ==> NearPlace(s, options[i]))
    ensures forall j :: 0 <= j < i ==> !NearPlace(s, options[j])
  {
    if options == [] || NearPlace(s, options[0]) then 0 else 1 + Chosen(options[1..], s)
  }

  predicate Hit(stage: Stage, s: Sample) {
    match stage
    case Lift(height) => s.z >= height
    case At(place) => NearPlace(s, place)
    case Past(x) => s.x >= x
    case Fork(options, _) => Chosen(options, s) < |options|
  }

  predicate Right(stage: Stage, s: Sample) {
    stage.Fork? ==> Chosen(stage.options, s) == stage.valid
  }

  /** How many stages are done, and whether the next one was first met on a wrong way. */
  datatype Progress = Progress(done: nat, wrong: bool)

  /** One sample may pass several stages. */
  function Pass(stages: seq<Stage>, p: Progress, s: Sample): (r: Progress)
    requires p.done <= |stages|
    ensures p.done <= r.done <= |stages|
    decreases |stages| - p.done
  {
    if p.wrong || p.done == |stages| || !Hit(stages[p.done], s) then p
    else if Right(stages[p.done], s) then Pass(stages, Progress(p.done + 1, false), s)
    else Progress(p.done, true)
  }

  function ProgressOf(stages: seq<Stage>, h: seq<Sample>): (r: Progress)
    ensures r.done <= |stages|
  {
    if h == [] then Progress(0, false) else Pass(stages, ProgressOf(stages, h[..|h| - 1]), h[|h| - 1])
  }

  lemma InCourse(stages: seq<Stage>, h: seq<Sample>)
    ensures ProgressOf(stages, h).done <= |stages|
  {
  }

  // ---------- where the stages are first met ----------

  /** The search for stage i starts where the stage before it was met. */
  function Start(at: seq<nat>, i: nat): nat
    requires i <= |at|
  {
    if i == 0 then 0 else at[i - 1]
  }

  predicate FirstHit(stage: Stage, h: seq<Sample>, from: nat, k: nat) {
    from <= k < |h| && Hit(stage, h[k]) && forall j :: from <= j < k ==> !Hit(stage, h[j])
  }

  predicate NoHit(stage: Stage, h: seq<Sample>, from: nat) {
    forall j :: from <= j < |h| ==> !Hit(stage, h[j])
  }

  /** Stage i was first met, on the right way, at its position. */
  predicate StageMet(stages: seq<Stage>, h: seq<Sample>, at: seq<nat>, i: nat)
    requires i < |at| && i < |stages|
  {
    FirstHit(stages[i], h, Start(at, i), at[i]) && Right(stages[i], h[at[i]])
  }

  predicate Itinerary(stages: seq<Stage>, h: seq<Sample>, at: seq<nat>) {
    |at| <= |stages| && forall i :: 0 <= i < |at| ==> StageMet(stages, h, at, i)
  }

  /** The next stage was first met at k, on a wrong way. */
  predicate WentWrong(stages: seq<Stage>, h: seq<Sample>, at: seq<nat>, k: nat)
    requires |at| < |stages|
  {
    FirstHit(stages[|at|], h, Start(at, |at|), k) && !Right(stages[|at|], h[k])
  }

  /** The next stage, if any, was first met on a wrong way, or was not met yet. */
  ghost predicate Pending(stages: seq<Stage>, h: seq<Sample>, at: seq<nat>, wrong: bool) {
    if wrong then |at| < |stages| && exists k: nat :: WentWrong(stages, h, at, k)
    else |at| < |stages| ==> NoHit(stages[|at|], h, Start(at, |at|))
  }

  ghost predicate Describes(stages: seq<Stage>, h: seq<Sample>, p: Progress, at: seq<nat>) {
    |at| == p.done && Itinerary(stages, h, at) && Pending(stages, h, at, p.wrong)
  }

  lemma FirstHitGrows(stage: Stage, h: seq<Sample>, s: Sample, from: nat, k: nat)
    requires FirstHit(stage, h, from, k)
    ensures FirstHit(stage, h + [s], from, k) && (h + [s])[k] == h[k]
  {
    hide Hit;
  }

  lemma LastHit(stage: Stage, h: seq<Sample>, s: Sample, from: nat)
    requires NoHit(stage, h, from) && from <= |h|
    ensures Hit(stage, s) ==> FirstHit(stage, h + [s], from, |h|)
    ensures !Hit(stage, s) ==> NoHit(stage, h + [s], from)
  {
    hide Hit;
  }

  lemma ItineraryGrows(stages: seq<Stage>, h: seq<Sample>, s: Sample, at: seq<nat>)
    requires Itinerary(stages, h, at)
    ensures Itinerary(stages, h + [s], at)
  {
    forall i: nat | i < |at|
      ensures StageMet(stages, h + [s], at, i)
    {
      assert StageMet(stages, h, at, i);
      hide FirstHit;
      hide Right;
      FirstHitGrows(stages[i], h, s, Start(at, i), at[i]);
    }
  }

  lemma ItineraryStep(stages: seq<Stage>, h: seq<Sample>, at: seq<nat>, k: nat)
    requires Itinerary(stages, h, at) && |at| < |stages|
    requires FirstHit(stages[|at|], h, Start(at, |at|), k) && k < |h| && Right(stages[|at|], h[k])
    ensures Itinerary(stages, h, at + [k])
  {
    hide FirstHit;
    hide Right;
    var next := at + [k];
    forall i: nat | i < |next|
      ensures StageMet(stages, h, next, i)
    {
      assert Start(next, i) == Start(at, i);
      if i < |at| {
        assert StageMet(stages, h, at, i);
      }
    }
  }

  /** Some itinerary describes the progress. */
  ghost predicate Described(stages: seq<Stage>, h: seq<Sample>, p: Progress) {
    exists at: seq<nat> :: Describes(stages, h, p, at)
  }

  /** The last sample passes stages one by one; before it the next stage was not met. */
  lemma {:induction false} PassDescribed(stages: seq<Stage>, h: seq<Sample>, s: Sample, at: seq<nat>)
    requires |at| <= |stages| && Itinerary(stages, h + [s], at) && Start(at, |at|) <= |h|
    requires |at| < |stages| ==> NoHit(stages[|at|], h, Start(at, |at|))
    ensures Described(stages, h + [s], Pass(stages, Progress(|at|, false), s))
    decreases |stages| - |at|
  {
    hide Hit;
    hide Right;
    hide Itinerary;
    hide FirstHit;
    var all, p := h + [s], Pass(stages, Progress(|at|, false), s);
    if |at| < |stages| {
      LastHit(stages[|at|], h, s, Start(at, |at|));
      if Hit(stages[|at|], s) {
        assert all[|h|] == s;
        if Right(stages[|at|], s) {
          ItineraryStep(stages, all, at, |h|);
          PassDescribed(stages, h, s, at + [|h|]);
        } else {
          assert WentWrong(stages, all, at, |h|);
          assert Describes(stages, all, p, at);
        }
      } else {
        assert Describes(stages, all, p, at);
      }
    } else {
      assert Describes(stages, all, p, at);
    }
  }

  lemma WrongStays(stages: seq<Stage>, h: seq<Sample>, s: Sample, at: seq<nat>)
    requires |at| <= |stages| && Pending(stages, h, at, true)
    ensures Pending(stages, h + [s], at, true)
  {
    var k: nat :| WentWrong(stages, h, at, k);
    FirstHitGrows(stages[|at|], h, s, Start(at, |at|), k);
    assert WentWrong(stages, h + [s], at, k);
  }

  /** The running state says exactly which stages were first met, where, in order, and whether the next went wrong. */
  lemma {:induction false} ProgressIsFirstHits(stages: seq<Stage>, h: seq<Sample>)
    ensures Described(stages, h, ProgressOf(stages, h))
  {
    hide Hit;
    hide Right;
    hide Itinerary;
    NothingMet(stages);
    if h != [] {
      var front, s := h[..|h| - 1], h[|h| - 1];
      assert h == front + [s];
      ProgressIsFirstHits(stages, front);
      var at: seq<nat> :| Describes(stages, front, ProgressOf(stages, front), at);
      ItineraryGrows(stages, front, s, at);
      StartInside(stages, front, at);
      if ProgressOf(stages, front).wrong {
        WrongStays(stages, front, s, at);
        assert Describes(stages, h, ProgressOf(stages, h), at);
      } else {
        PassDescribed(stages, front, s, at);
      }
    }
  }

  lemma NothingMet(stages: seq<Stage>)
    ensures Describes(stages, [], Progress(0, false), [])
  {
  }

  lemma StartInside(stages: seq<Stage>, h: seq<Sample>, at: seq<nat>)
    requires Itinerary(stages, h, at)
    ensures Start(at, |at|) <= |h|
  {
    if |at| > 0 {
      assert StageMet(stages, h, at, |at| - 1);
    }
  }

  // ---------- exactly when a course is complete, or left ----------

  lemma {:induction false} SameItinerary(stages: seq<Stage>, h: seq<Sample>, at: seq<nat>, other: seq<nat>)
    requires Itinerary(stages, h, at) && Itinerary(stages, h, other) && |at| <= |other|
    ensures at == other[..|at|]
  {
    hide Hit;
    hide Right;
    if |at| > 0 {
      var n := |at| - 1;
      ItineraryPrefix(stages, h, at, n);
      SameItinerary(stages, h, at[..n], other);
      assert StageMet(stages, h, at, n) && StageMet(stages, h, other, n);
      assert Start(at, n) == Start(other, n);
      assert at == at[..n] + [at[n]];
    }
  }

  lemma ItineraryPrefix(stages: seq<Stage>, h: seq<Sample>, at: seq<nat>, n: nat)
    requires Itinerary(stages, h, at) && n <= |at|
    ensures Itinerary(stages, h, at[..n])
  {
    hide FirstHit;
    hide Right;
    forall i: nat | i < n
      ensures StageMet(stages, h, at[..n], i)
    {
      assert StageMet(stages, h, at, i);
      assert Start(at[..n], i) == Start(at, i);
    }
  }

  /** An itinerary that goes on past a point where the next stage is pending contradicts it. */
  lemma PendingStops(stages: seq<Stage>, h: seq<Sample>, at: seq<nat>, wrong: bool, other: seq<nat>)
    requires Pending(stages, h, at, wrong) && Itinerary(stages, h, at) && Itinerary(stages, h, other)
    ensures |other| <= |at|
  {
    if |at| < |other| {
      SameItinerary(stages, h, at, other);
      Resumes(stages, h, at, other);
    }
  }

  lemma Resumes(stages: seq<Stage>, h: seq<Sample>, at: seq<nat>, other: seq<nat>)
    requires Itinerary(stages, h, other) && at < other
    ensures !Pending(stages, h, at, true) && !Pending(stages, h, at, false)
  {
    hide Hit;
    hide Right;
    assert StageMet(stages, h, other, |at|);
    assert Start(at, |at|) == Start(other, |at|);
  }

  /** The stages of an itinerary are met one after another. */
  lemma {:induction false} ItineraryOrdered(stages: seq<Stage>, h: seq<Sample>, at: seq<nat>, i: nat, j: nat)
    requires Itinerary(stages, h, at) && i <= j < |at|
    ensures at[i] <= at[j] < |h|
  {
    hide Hit;
    hide Right;
    assert StageMet(stages, h, at, j);
    if i < j {
      ItineraryOrdered(stages, h, at, i, j - 1);
    }
  }

  /** Some way of meeting the first n stages, each where it is first met after the one before it. */
  ghost predicate Reached(stages: seq<Stage>, h: seq<Sample>, n: nat) {
    exists at: seq<nat> :: |at| == n && Itinerary(stages, h, at)
  }

  /** Some stage was first met on a wrong way after all those before it. */
  ghost predicate Left(stages: seq<Stage>, h: seq<Sample>) {
    exists at: seq<nat>, k: nat :: |at| < |stages| && Itinerary(stages, h, at) && WentWrong(stages, h, at, k)
  }

  /** The running state decides both questions exactly. */
  lemma {:induction false} ProgressDecides(stages: seq<Stage>, h: seq<Sample>, n: nat)
    ensures n <= ProgressOf(stages, h).done <==> Reached(stages, h, n)
    ensures ProgressOf(stages, h).wrong <==> Left(stages, h)
  {
    var p := ProgressOf(stages, h);
    ProgressIsFirstHits(stages, h);
    var at: seq<nat> :| Describes(stages, h, p, at);
    hide ProgressOf;
    if n <= p.done {
      ItineraryPrefix(stages, h, at, n);
      assert |at[..n]| == n;
    }
    if other: seq<nat> :| |other| == n && Itinerary(stages, h, other) {
      PendingStops(stages, h, at, p.wrong, other);
    }
    if p.wrong {
      var k: nat :| WentWrong(stages, h, at, k);
      assert |at| < |stages|;
    }
    if other: seq<nat>, k: nat :| |other| < |stages| && Itinerary(stages, h, other) && WentWrong(stages, h, other, k) {
      PendingStops(stages, h, at, p.wrong, other);
      LeftIsLast(stages, h, other, k, at);
    }
  }

  /** Nobody goes on past a stage left on a wrong way, and its end is pending that way. */
  lemma LeftIsLast(stages: seq<Stage>, h: seq<Sample>, other: seq<nat>, k: nat, at: seq<nat>)
    requires |other| < |stages| && Itinerary(stages, h, other) && WentWrong(stages, h, other, k)
    requires Itinerary(stages, h, at) && |other| <= |at|
    ensures at == other && !NoHit(stages[|other|], h, Start(other, |other|))
  {
    hide Hit;
    hide Right;
    assert Pending(stages, h, other, true);
    PendingStops(stages, h, other, true, at);
    SameItinerary(stages, h, other, at);
    assert at == at[..|other|];
  }

  /** Who left the course never completes it. */
  lemma LeftIsFinal(stages: seq<Stage>, h: seq<Sample>)
    requires Left(stages, h)
    ensures !Reached(stages, h, |stages|)
  {
    hide Itinerary;
    hide WentWrong;
    var at: seq<nat>, k: nat :| |at| < |stages| && Itinerary(stages, h, at) && WentWrong(stages, h, at, k);
    if other: seq<nat> :| |other| == |stages| && Itinerary(stages, h, other) {
      assert Pending(stages, h, at, true);
      PendingStops(stages, h, at, true, other);
    }
  }

  // ---------- hazards ----------

  /** What a contact point must not touch: boxes around barriers, or anything above a height. */
  datatype Hazard = Boxes(centres: seq<Point>) | Above(height: real)

  const HALF_EXTENT := 0.07
  const HALF_HEIGHT := 0.55
  const CONTACT_TOLERANCE := 0.004

  predicate InBox(c: Point, box: Point) {
    && Abs(c.x - box.x) <= HALF_EXTENT + CONTACT_TOLERANCE
    && Abs(c.y - box.y) <= HALF_EXTENT + CONTACT_TOLERANCE
    && Abs(c.z - box.z) <= HALF_HEIGHT + CONTACT_TOLERANCE
  }

  predicate Touches(hazard: Hazard, c: Point) {
    match hazard
    case Boxes(centres) => exists i :: 0 <= i < |centres| && InBox(c, centres[i])
    case Above(height) => c.z > height
  }

  predicate Collides(hazard: Hazard, s: Sample) {
    exists i :: 0 <= i < |s.contacts| && Touches(hazard, s.contacts[i])
  }

  predicate Collided(hazard: Hazard, h: seq<Sample>) {
    exists k :: 0 <= k < |h| && Collides(hazard, h[k])
  }

  lemma CollidedAppend(hazard: Hazard, h: seq<Sample>, s: Sample)
    ensures Collided(hazard, h + [s]) <==> Collided(hazard, h) || Collides(hazard, s)
  {
    hide Collides;
    var all := h + [s];
    if Collides(hazard, s) {
      assert Collides(hazard, all[|h|]);
    }
    if k :| 0 <= k < |h| && Collides(hazard, h[k]) {
      assert Collides(hazard, all[k]);
    }
  }
}
