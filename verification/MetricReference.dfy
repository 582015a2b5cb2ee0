/**
 Admission of synchronisation observations and the device-time image of a reference
 interval. The clock polygon returned by `Clocks` holds exactly the affine clocks of
 positive rate that agree with every observation; `Mapped` is then an exact range.
 */
module MetricReference {
  import opened Reals
  import opened Wrappers
  import opened ClockPolygon

  datatype Interval = Interval(lo: real, hi: real) {
    predicate Contains(t: real) {
      lo <= t <= hi
    }
  }

  /** One observation: the event lies in `reference` on the reference clock and in `device` on the device clock. */
  datatype Anchor = Anchor(reference: Interval, device: Interval)

  datatype ReferenceError =
    | TooFewObservations
    | ReversedInterval
    | NegativeCoordinate
    | UnorderedObservations
    | NoCommonClock
    | Extrapolation

  datatype Admitted = Admitted(polygon: seq<Clock>, domain: Interval)

  // ---------- what the observations mean ----------

  /** A clock agrees with an observation when some admissible reference time maps into the device interval. */
  ghost predicate Agrees(p: Clock, anchor: Anchor) {
    exists t :: anchor.reference.Contains(t) && anchor.device.Contains(p.Image(t))
  }

  ghost predicate Admissible(p: Clock, anchors: seq<Anchor>) {
    p.rate > 0.0 && forall k :: 0 <= k < |anchors| ==> Agrees(p, anchors[k])
  }

  predicate Proper(anchor: Anchor) {
    anchor.reference.lo <= anchor.reference.hi && anchor.device.lo <= anchor.device.hi
  }

  predicate NonNegative(anchor: Anchor) {
    anchor.reference.lo >= 0.0 && anchor.device.lo >= 0.0
  }

  predicate Follows(next: Anchor, last: Anchor) {
    next.reference.lo > last.reference.hi && next.device.lo > last.device.hi
  }

  /** The input contract of the clock model: what is checked before any geometry. */
  predicate WellFormed(anchors: seq<Anchor>) {
    && |anchors| >= 2
    && (forall k :: 0 <= k < |anchors| ==> Proper(anchors[k]) && NonNegative(anchors[k]))
    && (forall k :: 0 < k < |anchors| ==> Follows(anchors[k], anchors[k - 1]))
  }

  // ---------- the two half-planes of an observation ----------

  function NotBelow(anchor: Anchor): Affine {
    Affine(-anchor.reference.hi, -1.0, -anchor.device.lo)
  }

  function NotAbove(anchor: Anchor): Affine {
    Affine(anchor.reference.lo, 1.0, anchor.device.hi)
  }

  predicate MeetsBoth(p: Clock, anchor: Anchor) {
    NotBelow(anchor).Inside(p) && NotAbove(anchor).Inside(p)
  }

  lemma AgreementMeetsBoth(p: Clock, anchor: Anchor)
    requires p.rate > 0.0 && Agrees(p, anchor)
    ensures MeetsBoth(p, anchor)
  {
    var r, d := anchor.reference, anchor.device;
    var t :| r.Contains(t) && d.Contains(p.Image(t));
    MulMonotone(r.lo, t, p.rate);
    MulMonotone(t, r.hi, p.rate);
  }

  lemma MeetingBothAgrees(p: Clock, anchor: Anchor)
    requires p.rate > 0.0 && Proper(anchor) && MeetsBoth(p, anchor)
    ensures Agrees(p, anchor)
  {
    var r, d := anchor.reference, anchor.device;
    assert p.Image(r.lo) <= d.hi && p.Image(r.hi) >= d.lo;
    var t := (d.lo - p.offset) / p.rate;
    assert t * p.rate == d.lo - p.offset;
    assert r.hi * p.rate == p.Image(r.hi) - p.offset;
    Cancel(t, r.hi, p.rate);
    var s := if t < r.lo then r.lo else t;
    if t < r.lo {
      MulMonotone(t, r.lo, p.rate);
    }
    assert r.Contains(s) && d.Contains(p.Image(s));
  }

  /** A positive clock agrees with an observation exactly when it lies in both half-planes. */
  lemma AgreementIsTwoHalfPlanes(p: Clock, anchor: Anchor)
    requires p.rate > 0.0 && Proper(anchor)
    ensures Agrees(p, anchor) <==> MeetsBoth(p, anchor)
  {
    hide MeetsBoth;
    hide Agrees;
    if Agrees(p, anchor) {
      AgreementMeetsBoth(p, anchor);
    }
    if MeetsBoth(p, anchor) {
      MeetingBothAgrees(p, anchor);
    }
  }

  // ---------- the initial box ----------

  lemma {:induction false} LaterFollowsFirst(anchors: seq<Anchor>, k: nat)
    requires WellFormed(anchors) && 0 < k < |anchors|
    ensures Follows(anchors[k], anchors[0])
  {
    if k > 1 {
      LaterFollowsFirst(anchors, k - 1);
      assert Proper(anchors[k - 1]);
    }
  }

  function MinRate(first: Anchor, last: Anchor): real
    requires last.reference.hi > first.reference.lo
  {
    (last.device.lo - first.device.hi) / (last.reference.hi - first.reference.lo)
  }

  function MaxRate(first: Anchor, last: Anchor): real
    requires last.reference.lo > first.reference.hi
  {
    (last.device.hi - first.device.lo) / (last.reference.lo - first.reference.hi)
  }

  function Box(first: Anchor, last: Anchor): seq<Clock>
    requires Proper(first) && Proper(last) && Follows(last, first)
  {
    var amin, amax := MinRate(first, last), MaxRate(first, last);
    var bmin := first.device.lo - amax * first.reference.hi;
    var bmax := first.device.hi - amin * first.reference.lo;
    [Clock(amin, bmin), Clock(amax, bmin), Clock(amax, bmax), Clock(amin, bmax)]
  }

  lemma QuotientBounds(n: real, nlo: real, nhi: real, d: real, dlo: real, dhi: real, a: real)
    requires 0.0 < nlo <= n <= nhi && 0.0 < dlo <= d <= dhi && a * d == n
    ensures 0.0 < nlo / dhi <= a <= nhi / dlo
  {
  }

  lemma ProductBounds(a: real, alo: real, ahi: real, t: real, tlo: real, thi: real)
    requires 0.0 <= alo <= a <= ahi && 0.0 <= tlo <= t <= thi
    ensures alo * tlo <= a * t <= ahi * thi
  {
  }

  /** Every clock that agrees with the first and the last observation lies in the box, whose rates are positive. */
  lemma AgreeingClocksInBox(p: Clock, first: Anchor, last: Anchor)
    requires Proper(first) && Proper(last) && NonNegative(first) && Follows(last, first)
    requires p.rate > 0.0 && Agrees(p, first) && Agrees(p, last)
    ensures 0.0 < MinRate(first, last) <= p.rate <= MaxRate(first, last)
    ensures first.device.lo - MaxRate(first, last) * first.reference.hi <= p.offset
    ensures p.offset <= first.device.hi - MinRate(first, last) * first.reference.lo
  {
    hide Clock.Image;
    hide MinRate;
    hide MaxRate;
    var s :| first.reference.Contains(s) && first.device.Contains(p.Image(s));
    var t :| last.reference.Contains(t) && last.device.Contains(p.Image(t));
    RateBetween(p, first, last, s, t);
    OffsetBetween(p, first, s, MinRate(first, last), MaxRate(first, last));
  }

  lemma OffsetBetween(p: Clock, first: Anchor, s: real, amin: real, amax: real)
    requires NonNegative(first) && first.reference.Contains(s) && first.device.Contains(p.Image(s))
             && 0.0 <= amin <= p.rate <= amax
    ensures first.device.lo - amax * first.reference.hi <= p.offset <= first.device.hi - amin * first.reference.lo
  {
    ProductBounds(p.rate, amin, amax, s, first.reference.lo, first.reference.hi);
    assert p.offset == p.Image(s) - p.rate * s;
  }

  lemma RateBetween(p: Clock, first: Anchor, last: Anchor, s: real, t: real)
    requires Follows(last, first)
    requires first.reference.Contains(s) && first.device.Contains(p.Image(s))
    requires last.reference.Contains(t) && last.device.Contains(p.Image(t))
    ensures 0.0 < MinRate(first, last) <= p.rate <= MaxRate(first, last)
  {
    assert p.Image(t) - p.Image(s) == p.rate * (t - s);
    QuotientBounds(p.Image(t) - p.Image(s), last.device.lo - first.device.hi, last.device.hi - first.device.lo,
                   t - s, last.reference.lo - first.reference.hi, last.reference.hi - first.reference.lo, p.rate);
  }

  lemma BoxShape(first: Anchor, last: Anchor)
    requires Proper(first) && Proper(last) && NonNegative(first) && Follows(last, first)
    ensures 0.0 < MinRate(first, last) <= MaxRate(first, last)
    ensures Box(first, last)[0].offset <= Box(first, last)[2].offset
  {
    var n, d := last.device.lo - first.device.hi, last.reference.lo - first.reference.hi;
    QuotientBounds(n, n, last.device.hi - first.device.lo, d, d, last.reference.hi - first.reference.lo, n / d);
    ProductBounds(MinRate(first, last), MinRate(first, last), MaxRate(first, last),
                  first.reference.lo, first.reference.lo, first.reference.hi);
  }

  lemma RectangleOrient(amin: real, amax: real, bmin: real, bmax: real)
    requires amin <= amax && bmin <= bmax
    ensures LeftTurns([Clock(amin, bmin), Clock(amax, bmin), Clock(amax, bmax), Clock(amin, bmax)])
  {
    MulNonNegative(amax - amin, bmax - bmin);
  }

  lemma CornerBelow(g: Affine, amin: real, amax: real, bmin: real, bmax: real, p: Clock)
    requires amin <= p.rate <= amax && bmin <= p.offset <= bmax
    ensures exists a, b :: (a == amin || a == amax) && (b == bmin || b == bmax) && g.Eval(Clock(a, b)) <= g.Eval(p)
  {
    var a := if g.a >= 0.0 then amin else amax;
    var b := if g.b >= 0.0 then bmin else bmax;
    SameSign(g.a, if g.a >= 0.0 then p.rate - amin else amax - p.rate);
    SameSign(g.b, if g.b >= 0.0 then p.offset - bmin else bmax - p.offset);
    assert g.a * a <= g.a * p.rate;
    assert g.b * b <= g.b * p.offset;
    assert g.Eval(Clock(a, b)) <= g.Eval(p);
  }

  lemma RectangleCovers(amin: real, amax: real, bmin: real, bmax: real, p: Clock)
    requires amin <= p.rate <= amax && bmin <= p.offset <= bmax
    ensures InHull([Clock(amin, bmin), Clock(amax, bmin), Clock(amax, bmax), Clock(amin, bmax)], p)
  {
    var vs := [Clock(amin, bmin), Clock(amax, bmin), Clock(amax, bmax), Clock(amin, bmax)];
    assert vs[0] in vs && vs[1] in vs && vs[2] in vs && vs[3] in vs;
    forall g: Affine | forall v :: v in vs ==> g.Eval(v) >= 0.0
      ensures g.Eval(p) >= 0.0
    {
      hide Affine.Eval;
      CornerBelow(g, amin, amax, bmin, bmax, p);
    }
  }

  // ---------- the clipping loop ----------

  predicate MeetsFirst(p: Clock, anchors: seq<Anchor>, n: nat)
    requires n <= |anchors|
  {
    forall k :: 0 <= k < n ==> MeetsBoth(p, anchors[k])
  }

  /** After n observations the polygon covers exactly the clocks of the box that meet them. */
  ghost predicate PolygonInvariant(polygon: seq<Clock>, box: seq<Clock>, anchors: seq<Anchor>, n: nat)
    requires n <= |anchors|
  {
    LeftTurns(polygon) && forall p :: InHull(polygon, p) <==> InHull(box, p) && MeetsFirst(p, anchors, n)
  }

  lemma ObservationStep(polygon: seq<Clock>, box: seq<Clock>, anchors: seq<Anchor>, n: nat)
    requires n < |anchors| && PolygonInvariant(polygon, box, anchors, n)
    ensures PolygonInvariant(Clipped(Clipped(polygon, NotBelow(anchors[n])), NotAbove(anchors[n])), box, anchors, n + 1)
  {
    hide Affine.Inside;
    hide LeftTurns;
    hide InHull;
    hide Clipped;
    hide NotBelow;
    hide NotAbove;
    var below, above := NotBelow(anchors[n]), NotAbove(anchors[n]);
    var once := Clipped(polygon, below);
    var twice := Clipped(once, above);
    ClippedLeftTurns(polygon, below);
    ClippedLeftTurns(once, above);
    forall p
      ensures InHull(twice, p) <==> InHull(box, p) && MeetsFirst(p, anchors, n + 1)
    {
      if InHull(twice, p) {
        ClippedWithin(once, above, p);
        ClippedWithin(polygon, below, p);
      }
      if InHull(polygon, p) && MeetsBoth(p, anchors[n]) {
        ClippedCovers(polygon, below, p);
        ClippedCovers(once, above, p);
      }
    }
  }

  lemma BoxInvariant(anchors: seq<Anchor>)
    requires WellFormed(anchors)
    ensures Follows(anchors[|anchors| - 1], anchors[0])
    ensures var box := Box(anchors[0], anchors[|anchors| - 1]); PolygonInvariant(box, box, anchors, 0)
  {
    hide LeftTurns;
    hide InHull;
    var first, last := anchors[0], anchors[|anchors| - 1];
    LaterFollowsFirst(anchors, |anchors| - 1);
    BoxShape(first, last);
    var box := Box(first, last);
    RectangleOrient(box[0].rate, box[1].rate, box[0].offset, box[2].offset);
  }

  /** The box covers every admissible clock, and has positive rates only. */
  lemma BoxCovers(anchors: seq<Anchor>, p: Clock)
    requires WellFormed(anchors)
    ensures Follows(anchors[|anchors| - 1], anchors[0])
    ensures Admissible(p, anchors) ==> InHull(Box(anchors[0], anchors[|anchors| - 1]), p)
    ensures InHull(Box(anchors[0], anchors[|anchors| - 1]), p) ==> p.rate > 0.0
  {
    hide InHull;
    hide Agrees;
    var first, last := anchors[0], anchors[|anchors| - 1];
    LaterFollowsFirst(anchors, |anchors| - 1);
    BoxShape(first, last);
    var box := Box(first, last);
    hide MinRate;
    hide MaxRate;
    if Admissible(p, anchors) {
      AgreeingClocksInBox(p, first, last);
      RectangleCovers(box[0].rate, box[1].rate, box[0].offset, box[2].offset, p);
    }
    if InHull(box, p) {
      BoxIsPositive(box[0].rate, box[1].rate, box[0].offset, box[2].offset, p);
    }
  }

  lemma BoxIsPositive(amin: real, amax: real, bmin: real, bmax: real, p: Clock)
    requires 0.0 < amin <= amax
    requires InHull([Clock(amin, bmin), Clock(amax, bmin), Clock(amax, bmax), Clock(amin, bmax)], p)
    ensures p.rate > 0.0
  {
    var box := [Clock(amin, bmin), Clock(amax, bmin), Clock(amax, bmax), Clock(amin, bmax)];
    HullInside(box, p, RateAtLeast(amin));
  }

  function RateAtLeast(a: real): Affine {
    Affine(-1.0, 0.0, -a)
  }

  /** The polygon covers exactly the admissible clocks; its vertices are among them. */
  ghost predicate Exact(polygon: seq<Clock>, anchors: seq<Anchor>) {
    && (forall v :: v in polygon ==> Admissible(v, anchors))
    && (forall p :: Admissible(p, anchors) <==> InHull(polygon, p))
  }

  lemma InvariantIsExact(polygon: seq<Clock>, anchors: seq<Anchor>)
    requires WellFormed(anchors) && Follows(anchors[|anchors| - 1], anchors[0])
    requires PolygonInvariant(polygon, Box(anchors[0], anchors[|anchors| - 1]), anchors, |anchors|)
    ensures Exact(polygon, anchors)
  {
    hide LeftTurns;
    hide Box;
    hide MeetsBoth;
    hide Agrees;
    forall p
      ensures Admissible(p, anchors) <==> InHull(polygon, p)
    {
      hide InHull;
      BoxCovers(anchors, p);
      if p.rate > 0.0 {
        AdmissibleMeetsAll(p, anchors);
      }
    }
    forall v | v in polygon
      ensures InHull(polygon, v)
    {
    }
  }

  lemma AdmissibleMeetsAll(p: Clock, anchors: seq<Anchor>)
    requires p.rate > 0.0 && WellFormed(anchors)
    ensures Admissible(p, anchors) <==> MeetsFirst(p, anchors, |anchors|)
  {
    hide MeetsBoth;
    hide Agrees;
    forall k | 0 <= k < |anchors|
      ensures Agrees(p, anchors[k]) <==> MeetsBoth(p, anchors[k])
    {
      assert Proper(anchors[k]);
      AgreementIsTwoHalfPlanes(p, anchors[k]);
    }
  }

  lemma EmptyMeansNone(anchors: seq<Anchor>)
    requires Exact([], anchors)
    ensures !exists p :: Admissible(p, anchors)
  {
    hide Admissible;
    forall p: Clock
      ensures !InHull([], p)
    {
      assert Affine(0.0, 0.0, 1.0).Eval(p) < 0.0;
    }
  }

  method Parse(anchors: seq<Anchor>) returns (r: Result<seq<Anchor>, ReferenceError>)
    ensures r.Ok? <==> WellFormed(anchors)
    ensures r.Ok? ==> r.value == anchors
    ensures |anchors| < 2 <==> r == Err(TooFewObservations)
    ensures r.Err? ==> r.error in {TooFewObservations, ReversedInterval, NegativeCoordinate, UnorderedObservations}
  {
    if |anchors| < 2 {
      return Err(TooFewObservations);
    }
    var parsed: seq<Anchor> := [];
    for i := 0 to |anchors|
      invariant parsed == anchors[..i]
      invariant forall k :: 0 <= k < i ==> Proper(anchors[k]) && NonNegative(anchors[k])
      invariant forall k :: 0 < k < i ==> Follows(anchors[k], anchors[k - 1])
    {
      var r, d := anchors[i].reference, anchors[i].device;
      if r.lo > r.hi || d.lo > d.hi {
        assert !Proper(anchors[i]);
        return Err(ReversedInterval);
      }
      if r.lo < 0.0 || d.lo < 0.0 {
        assert !NonNegative(anchors[i]);
        return Err(NegativeCoordinate);
      }
      if |parsed| > 0 && (r.lo <= parsed[|parsed| - 1].reference.hi || d.lo <= parsed[|parsed| - 1].device.hi) {
        assert !Follows(anchors[i], anchors[i - 1]);
        return Err(UnorderedObservations);
      }
      parsed := parsed + [anchors[i]];
    }
    return Ok(parsed);
  }

  /** Observations are admitted exactly when well formed and jointly satisfiable; the polygon is then exact. */
  method Clocks(anchors: seq<Anchor>) returns (r: Result<Admitted, ReferenceError>)
    ensures r.Ok? <==> WellFormed(anchors) && exists p :: Admissible(p, anchors)
    ensures r.Ok? ==> r.value.polygon != [] && Exact(r.value.polygon, anchors)
    ensures r.Ok? ==> r.value.domain == Interval(anchors[0].reference.hi, anchors[|anchors| - 1].reference.lo)
    ensures WellFormed(anchors) && r.Err? ==> r.error == NoCommonClock
  {
    hide InHull;
    hide LeftTurns;
    hide Clipped;
    hide Admissible;
    var parsed := Parse(anchors);
    if parsed.Err? {
      return Err(parsed.error);
    }
    BoxInvariant(anchors);
    var first, last := anchors[0], anchors[|anchors| - 1];
    ghost var box := Box(first, last);
    var polygon := Box(first, last);
    for k := 0 to |anchors|
      invariant PolygonInvariant(polygon, box, anchors, k)
    {
      ObservationStep(polygon, box, anchors, k);
      polygon := Clip(polygon, NotBelow(anchors[k]));
      polygon := Clip(polygon, NotAbove(anchors[k]));
    }
    InvariantIsExact(polygon, anchors);
    if |polygon| == 0 {
      EmptyMeansNone(anchors);
      return Err(NoCommonClock);
    }
    assert Admissible(polygon[0], anchors);
    return Ok(Admitted(polygon, Interval(first.reference.hi, last.reference.lo)));
  }

  // ---------- images of reference intervals ----------

  function MinImage(vs: seq<Clock>, t: real): (m: real)
    requires vs != []
    ensures exists v :: v in vs && v.Image(t) == m
    ensures forall v :: v in vs ==> m <= v.Image(t)
  {
    if |vs| == 1 then vs[0].Image(t)
    else
      var rest := MinImage(vs[1..], t);
      if vs[0].Image(t) <= rest then vs[0].Image(t) else rest
  }

  function MaxImage(vs: seq<Clock>, t: real): (m: real)
    requires vs != []
    ensures exists v :: v in vs && v.Image(t) == m
    ensures forall v :: v in vs ==> v.Image(t) <= m
  {
    if |vs| == 1 then vs[0].Image(t)
    else
      var rest := MaxImage(vs[1..], t);
      if vs[0].Image(t) >= rest then vs[0].Image(t) else rest
  }

  function Mapped(value: Interval, polygon: seq<Clock>, domain: Interval): Result<Interval, ReferenceError>
    requires polygon != []
  {
    if value.lo > value.hi then Err(ReversedInterval)
    else if value.lo < domain.lo || value.hi > domain.hi then Err(Extrapolation)
    else Ok(Interval(MinImage(polygon, value.lo), MaxImage(polygon, value.hi)))
  }

  lemma HullBetweenImages(polygon: seq<Clock>, p: Clock, t: real)
    requires polygon != [] && InHull(polygon, p)
    ensures MinImage(polygon, t) <= p.Image(t) <= MaxImage(polygon, t)
  {
    hide Clock.Image;
    hide InHull;
    hide MinImage;
    hide MaxImage;
    var low, high := MinImage(polygon, t), MaxImage(polygon, t);
    HullKeepsBound(polygon, p, t, 1.0, low);
    HullKeepsBound(polygon, p, t, -1.0, -high);
  }

  lemma HullKeepsBound(polygon: seq<Clock>, p: Clock, t: real, sign: real, bound: real)
    requires sign == 1.0 || sign == -1.0
    requires InHull(polygon, p) && forall v :: v in polygon ==> sign * v.Image(t) >= bound
    ensures sign * p.Image(t) >= bound
  {
    var g := Affine(sign * t, sign, bound);
    forall v: Clock
      ensures g.Eval(v) == sign * v.Image(t) - bound
    {
    }
    assert g.Eval(p) >= 0.0;
  }

  lemma ImageMonotone(p: Clock, s: real, t: real)
    requires p.rate > 0.0 && s <= t
    ensures p.Image(s) <= p.Image(t)
  {
  }

  /** `Mapped` contains every image of the interval under every admissible clock, and both its ends are such images. */
  lemma MappedIsExactRange(value: Interval, polygon: seq<Clock>, domain: Interval, anchors: seq<Anchor>)
    requires polygon != [] && Exact(polygon, anchors)
    requires value.lo <= value.hi && domain.lo <= value.lo && value.hi <= domain.hi
    ensures Mapped(value, polygon, domain).Ok?
    ensures var range := Mapped(value, polygon, domain).value;
            && (forall p, t :: Admissible(p, anchors) && value.Contains(t) ==> range.Contains(p.Image(t)))
            && (exists p :: Admissible(p, anchors) && p.Image(value.lo) == range.lo)
            && (exists p :: Admissible(p, anchors) && p.Image(value.hi) == range.hi)
  {
    hide InHull;
    hide Agrees;
    hide MinImage;
    hide MaxImage;
    hide Clock.Image;
    var range := Mapped(value, polygon, domain).value;
    forall p, t | Admissible(p, anchors) && value.Contains(t)
      ensures range.Contains(p.Image(t))
    {
      HullBetweenImages(polygon, p, value.lo);
      HullBetweenImages(polygon, p, value.hi);
      ImageMonotone(p, value.lo, t);
      ImageMonotone(p, t, value.hi);
    }
    var low :| low in polygon && low.Image(value.lo) == range.lo;
    var high :| high in polygon && high.Image(value.hi) == range.hi;
    assert Admissible(low, anchors) && Admissible(high, anchors);
  }

  /** What was mapped before lies between the first and the last observation; anything else is refused, and why. */
  lemma MappedRefusals(admitted: Admitted, anchors: seq<Anchor>, value: Interval)
    requires |anchors| >= 2 && admitted.polygon != []
    requires admitted.domain == Interval(anchors[0].reference.hi, anchors[|anchors| - 1].reference.lo)
    ensures var r := Mapped(value, admitted.polygon, admitted.domain);
            && (r.Ok? <==> value.lo <= value.hi && anchors[0].reference.hi <= value.lo
                           && value.hi <= anchors[|anchors| - 1].reference.lo)
            && (value.lo > value.hi ==> r == Err(ReversedInterval))
            && (value.lo <= value.hi && value.lo < anchors[0].reference.hi ==> r == Err(Extrapolation))
            && (value.lo <= value.hi && anchors[|anchors| - 1].reference.lo < value.hi ==> r == Err(Extrapolation))
  {
  }

  /** The difference of two uncertain quantities. */
  function Delta(before: Interval, after: Interval): (r: Interval)
    requires before.lo <= before.hi && after.lo <= after.hi
    ensures forall x, y :: before.Contains(x) && after.Contains(y) ==> r.Contains(y - x)
    ensures exists x, y :: before.Contains(x) && after.Contains(y) && y - x == r.lo
    ensures exists x, y :: before.Contains(x) && after.Contains(y) && y - x == r.hi
  {
    assert before.Contains(before.lo) && before.Contains(before.hi) && after.Contains(after.lo)
        && after.Contains(after.hi);
    Interval(after.lo - before.hi, after.hi - before.lo)
  }
}
