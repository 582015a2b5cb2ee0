/**
 The linear vertical error model behind the envelopes: exact propagation of an error
 history, its generator columns, and the backward adjoint that measures them.
 */
module ErrorModel {
  import opened Reals

  /** A height/velocity pair: an error state, a generator column, or a covector. */
  datatype Vec = Vec(z: real, v: real) {
    function Dot(w: Vec): real {
      z * w.z + v * w.v
    }
  }

  const HEIGHT := Vec(1.0, 0.0)
  const SPEED := Vec(0.0, 1.0)

  datatype Cadence = Cadence(dt: real, omega: real, stride: int) {
    function Kz(): real { 2.0 * omega * dt * stride as real }
    function Kv(): real { omega * omega * dt * stride as real }

    predicate Corrects(step: int)
      requires stride >= 1
    {
      step % stride == 0 && omega != 0.0
    }

    function Predict(s: Vec): Vec { Vec(s.z + dt * s.v, s.v) }
    function Push(): Vec { Vec(0.5 * dt * dt, dt) }
    function Correct(s: Vec): Vec { Vec((1.0 - Kz()) * s.z, s.v - Kv() * s.z) }
    function Gain(): Vec { Vec(Kz(), Kv()) }

    // Adjoints of the two maps.
    function PredictT(y: Vec): Vec { Vec(y.z, dt * y.z + y.v) }
    function CorrectT(y: Vec): Vec { Vec((1.0 - Kz()) * y.z - Kv() * y.v, y.v) }
  }

  /** Declared bounds: initial height and velocity, acceleration per step, pressure. */
  datatype Bounds = Bounds(z0: real, v0: real, acceleration: seq<real>, pressure: real) {
    predicate NonNegative() {
      z0 >= 0.0 && v0 >= 0.0 && pressure >= 0.0 && forall i :: 0 <= i < |acceleration| ==> acceleration[i] >= 0.0
    }
  }

  /** One realisation of every error: initial state, acceleration in each interval, pressure at each step. */
  datatype History = History(start: Vec, acceleration: seq<real>, pressure: seq<real>) {
    predicate Within(b: Bounds) {
      && Abs(start.z) <= b.z0 && Abs(start.v) <= b.v0
      && |acceleration| == |pressure| == |b.acceleration|
      && (forall i :: 0 <= i < |acceleration| ==> Abs(acceleration[i]) <= b.acceleration[i])
      && (forall i :: 0 <= i < |pressure| ==> Abs(pressure[i]) <= b.pressure)
    }
  }

  function Add(s: Vec, k: real, g: Vec): Vec {
    Vec(s.z + k * g.z, s.v + k * g.v)
  }

  function Scaled(g: Vec, k: real): Vec {
    Vec(g.z * k, g.v * k)
  }

  /** How far a term of sensitivity c moves under an error bounded by `bound`. */
  function Reach(c: real, bound: real): real {
    Abs(c) * bound
  }

  // ---------- forward: one history ----------

  /** The error just before the correction of a step. */
  function Predicted(m: Cadence, h: History, n: nat): Vec
    requires m.stride >= 1 && 0 < n <= |h.acceleration| && |h.acceleration| == |h.pressure|
    decreases n, 0
  {
    Add(m.Predict(State(m, h, n - 1)), h.acceleration[n - 1], m.Push())
  }

  /** The error after n steps: constant acceleration error per interval, pressure error at each correction. */
  function State(m: Cadence, h: History, n: nat): Vec
    requires m.stride >= 1 && n <= |h.acceleration| && |h.acceleration| == |h.pressure|
    decreases n, 1
  {
    if n == 0 then h.start
    else
      var s := Predicted(m, h, n);
      if m.Corrects(n) then Add(s, h.pressure[n - 1] - s.z, m.Gain()) else s
  }

  /** The error at an instant inside the interval that ends with step n. */
  function Inside(m: Cadence, h: History, n: nat, tau: real): real
    requires m.stride >= 1 && 0 < n <= |h.acceleration| && |h.acceleration| == |h.pressure|
  {
    Coast(State(m, h, n - 1), h.acceleration[n - 1], tau)
  }

  /** The height reached after tau from a state under a constant acceleration. */
  function Coast(s: Vec, a: real, tau: real): real {
    s.z + tau * s.v + 0.5 * a * tau * tau
  }

  // ---------- forward: generator columns ----------

  function MapPredict(m: Cadence, cs: seq<Vec>): (r: seq<Vec>)
    ensures |r| == |cs|
  {
    if cs == [] then [] else [m.Predict(cs[0])] + MapPredict(m, cs[1..])
  }

  function MapCorrect(m: Cadence, cs: seq<Vec>): (r: seq<Vec>)
    ensures |r| == |cs|
  {
    if cs == [] then [] else [m.Correct(cs[0])] + MapCorrect(m, cs[1..])
  }

  function PredictedColumns(m: Cadence, b: Bounds, n: nat): seq<Vec>
    requires m.stride >= 1 && 0 < n <= |b.acceleration|
    decreases n, 0
  {
    MapPredict(m, Columns(m, b, n - 1)) + [Scaled(m.Push(), b.acceleration[n - 1])]
  }

  /** The columns after n steps: every error source is carried as its own column. */
  function Columns(m: Cadence, b: Bounds, n: nat): seq<Vec>
    requires m.stride >= 1 && n <= |b.acceleration|
    decreases n, 1
  {
    if n == 0 then [Vec(b.z0, 0.0), Vec(0.0, b.v0)]
    else
      var cs := PredictedColumns(m, b, n);
      if m.Corrects(n) then MapCorrect(m, cs) + [Scaled(m.Gain(), b.pressure)] else cs
  }

  /** The width of the column set along y. */
  function Width(cs: seq<Vec>, y: Vec): real {
    if cs == [] then 0.0 else Abs(y.Dot(cs[0])) + Width(cs[1..], y)
  }

  // ---------- backward: the adjoint ----------

  function PredictedSupport(m: Cadence, b: Bounds, n: nat, y: Vec): real
    requires m.stride >= 1 && 0 < n <= |b.acceleration|
    decreases n, 0
  {
    Reach(y.Dot(m.Push()), b.acceleration[n - 1]) + Support(m, b, n - 1, m.PredictT(y))
  }

  function Support(m: Cadence, b: Bounds, n: nat, y: Vec): real
    requires m.stride >= 1 && n <= |b.acceleration|
    decreases n, 1
  {
    if n == 0 then Reach(y.z, b.z0) + Reach(y.v, b.v0)
    else if m.Corrects(n) then Reach(y.Dot(m.Gain()), b.pressure) + PredictedSupport(m, b, n, m.CorrectT(y))
    else PredictedSupport(m, b, n, y)
  }

  // ---------- what one step and one correction are ----------

  /** A prediction interval under a constant acceleration error. */
  lemma PredictionIs(m: Cadence, s: Vec, a: real)
    ensures Add(m.Predict(s), a, m.Push()) == Vec(s.z + s.v * m.dt + a * m.dt * m.dt / 2.0, s.v + a * m.dt)
  {
  }

  /** A correction by the critically damped observer of bandwidth omega, over the time between corrections. */
  lemma CorrectionIs(m: Cadence, s: Vec, p: real, time: real)
    requires time == m.dt * m.stride as real
    ensures Add(s, p - s.z, m.Gain()) ==
              Vec((1.0 - 2.0 * m.omega * time) * s.z + 2.0 * m.omega * time * p,
                  s.v - m.omega * m.omega * time * (s.z - p))
  {
    OverTime(m.omega, m.dt, m.stride as real);
    GainsAre(m);
    Blend(s.z, p, m.Gain().z, 2.0 * m.omega * time);
    Lowered(s.v, s.z, p, m.Gain().v, m.omega * m.omega * time);
    hide Cadence.Gain;
  }

  lemma GainsAre(m: Cadence)
    ensures m.Gain() == Vec(2.0 * m.omega * m.dt * m.stride as real, m.omega * m.omega * m.dt * m.stride as real)
  {
  }

  lemma OverTime(omega: real, dt: real, n: real)
    ensures 2.0 * omega * dt * n == 2.0 * omega * (dt * n) && omega * omega * dt * n == omega * omega * (dt * n)
  {
  }

  lemma Blend(z: real, p: real, gain: real, k: real)
    requires gain == k
    ensures z + (p - z) * gain == (1.0 - k) * z + k * p
  {
  }

  lemma Lowered(v: real, z: real, p: real, gain: real, k: real)
    requires gain == k
    ensures v + (p - z) * gain == v - k * (z - p)
  {
  }

  /** With no error but the initial height, only the first correction changes it. */
  lemma {:induction false} CoastsToCorrection(m: Cadence, h: History, n: nat)
    requires m.stride >= 1 && m.omega != 0.0 && n <= |h.acceleration| == |h.pressure| && n <= m.stride
    requires h.start.v == 0.0 && (forall i :: 0 <= i < |h.acceleration| ==> h.acceleration[i] == h.pressure[i] == 0.0)
    ensures n < m.stride ==> State(m, h, n) == h.start
    ensures n == m.stride ==> State(m, h, n).z == (1.0 - 2.0 * m.omega * (m.dt * m.stride as real)) * h.start.z
  {
    hide Add;
    hide Cadence.Predict;
    hide Cadence.Push;
    hide Cadence.Gain;
    hide Cadence.Corrects;
    if n > 0 {
      CoastsToCorrection(m, h, n - 1);
      CorrectsFirst(m, n);
      Undisturbed(m, h.start);
    }
  }

  lemma Undisturbed(m: Cadence, s: Vec)
    requires s.v == 0.0
    ensures Add(m.Predict(s), 0.0, m.Push()) == s
    ensures Add(s, 0.0 - s.z, m.Gain()).z == (1.0 - 2.0 * m.omega * (m.dt * m.stride as real)) * s.z
  {
    var time := m.dt * m.stride as real;
    CorrectionIs(m, s, 0.0, time);
    hide Cadence.Gain;
    hide Add;
    assert 2.0 * m.omega * time * 0.0 == 0.0;
  }

  lemma CorrectsFirst(m: Cadence, n: nat)
    requires 0 < n <= m.stride && m.omega != 0.0
    ensures m.Corrects(n) <==> n == m.stride
  {
  }

  // ---------- adjointness ----------

  lemma AdjointPredict(m: Cadence, y: Vec, s: Vec)
    ensures y.Dot(m.Predict(s)) == m.PredictT(y).Dot(s)
  {
  }

  lemma AdjointCorrect(m: Cadence, y: Vec, s: Vec)
    ensures y.Dot(m.Correct(s)) == m.CorrectT(y).Dot(s)
  {
    hide Cadence.Kz;
    hide Cadence.Kv;
  }

  lemma DotAdd(y: Vec, s: Vec, k: real, g: Vec)
    ensures y.Dot(Add(s, k, g)) == y.Dot(s) + k * y.Dot(g)
  {
  }

  lemma DotScaled(y: Vec, k: real, g: Vec)
    requires k >= 0.0
    ensures Abs(y.Dot(Scaled(g, k))) == Reach(y.Dot(g), k)
  {
  }

  lemma {:induction false} WidthAppend(cs: seq<Vec>, c: Vec, y: Vec)
    ensures Width(cs + [c], y) == Width(cs, y) + Abs(y.Dot(c))
  {
    hide Vec.Dot;
    if cs != [] {
      assert (cs + [c])[1..] == cs[1..] + [c];
      WidthAppend(cs[1..], c, y);
    } else {
      assert [c][1..] == [];
      assert cs + [c] == [c];
    }
  }

  lemma {:induction false} WidthPredict(m: Cadence, cs: seq<Vec>, y: Vec)
    ensures Width(MapPredict(m, cs), y) == Width(cs, m.PredictT(y))
  {
    hide Vec.Dot;
    hide Cadence.Predict;
    hide Cadence.PredictT;
    if cs != [] {
      AdjointPredict(m, y, cs[0]);
      WidthPredict(m, cs[1..], y);
    }
  }

  lemma {:induction false} WidthCorrect(m: Cadence, cs: seq<Vec>, y: Vec)
    ensures Width(MapCorrect(m, cs), y) == Width(cs, m.CorrectT(y))
  {
    hide Vec.Dot;
    hide Cadence.Correct;
    hide Cadence.CorrectT;
    if cs != [] {
      AdjointCorrect(m, y, cs[0]);
      WidthCorrect(m, cs[1..], y);
    }
  }

  /** Forward columns and backward adjoint measure the same thing, in every direction and after any number of steps. */
  lemma {:induction false} WidthIsSupport(m: Cadence, b: Bounds, n: nat, y: Vec)
    requires m.stride >= 1 && n <= |b.acceleration| && b.NonNegative()
    ensures Width(Columns(m, b, n), y) == Support(m, b, n, y)
    ensures n > 0 ==> Width(PredictedColumns(m, b, n), y) == PredictedSupport(m, b, n, y)
    decreases n
  {
    if n == 0 {
      DotScaled(y, b.z0, HEIGHT);
      DotScaled(y, b.v0, SPEED);
      assert Width([Vec(0.0, b.v0)], y) == Abs(y.Dot(Vec(0.0, b.v0))) + Width([], y);
    } else {
      PredictedWidth(m, b, n, y);
      if m.Corrects(n) {
        CorrectedWidth(m, b, n, y);
      }
    }
  }

  lemma {:induction false} PredictedWidth(m: Cadence, b: Bounds, n: nat, y: Vec)
    requires m.stride >= 1 && 0 < n <= |b.acceleration| && b.NonNegative()
    ensures Width(PredictedColumns(m, b, n), y) == PredictedSupport(m, b, n, y)
    decreases n, 0
  {
    hide Vec.Dot;
    hide Cadence.Push;
    var cs := Columns(m, b, n - 1);
    WidthIsSupport(m, b, n - 1, m.PredictT(y));
    WidthPredict(m, cs, y);
    WidthAppend(MapPredict(m, cs), Scaled(m.Push(), b.acceleration[n - 1]), y);
    DotScaled(y, b.acceleration[n - 1], m.Push());
  }

  lemma {:induction false} CorrectedWidth(m: Cadence, b: Bounds, n: nat, y: Vec)
    requires m.stride >= 1 && 0 < n <= |b.acceleration| && b.NonNegative() && m.Corrects(n)
    ensures Width(Columns(m, b, n), y) == Support(m, b, n, y)
    decreases n, 1
  {
    hide Vec.Dot;
    hide Cadence.Gain;
    var cs := PredictedColumns(m, b, n);
    PredictedWidth(m, b, n, m.CorrectT(y));
    WidthCorrect(m, cs, y);
    WidthAppend(MapCorrect(m, cs), Scaled(m.Gain(), b.pressure), y);
    DotScaled(y, b.pressure, m.Gain());
  }

  // ---------- worst case ----------

  /** No admissible history exceeds the support in any direction, before or after a correction. */
  lemma {:induction false} NoHistoryExceeds(m: Cadence, b: Bounds, h: History, n: nat, y: Vec)
    requires m.stride >= 1 && n <= |b.acceleration| && h.Within(b)
    ensures y.Dot(State(m, h, n)) <= Support(m, b, n, y)
    ensures n > 0 ==> y.Dot(Predicted(m, h, n)) <= PredictedSupport(m, b, n, y)
    decreases n, 1
  {
    if n == 0 {
      StartReach(y.z, h.start.z, b.z0);
      StartReach(y.v, h.start.v, b.v0);
      hide Reach;
    } else {
      hide Vec.Dot;
      hide Cadence.Gain;
      hide Cadence.Predict;
      hide Cadence.CorrectT;
      NoPredictionExceeds(m, b, h, n, y);
      if m.Corrects(n) {
        NoPredictionExceeds(m, b, h, n, m.CorrectT(y));
        CorrectionExceedsNothing(m, b.pressure, y, Predicted(m, h, n), h.pressure[n - 1]);
      }
    }
  }

  lemma StartReach(c: real, x: real, bound: real)
    requires Abs(x) <= bound
    ensures c * x <= Reach(c, bound)
  {
    if c >= 0.0 {
      MulMonotone(x, bound, c);
    } else {
      MulMonotone(-x, bound, -c);
    }
  }

  lemma CorrectionExceedsNothing(m: Cadence, bound: real, y: Vec, s: Vec, p: real)
    requires Abs(p) <= bound
    ensures y.Dot(Add(s, p - s.z, m.Gain())) <= Reach(y.Dot(m.Gain()), bound) + m.CorrectT(y).Dot(s)
  {
  }

  lemma {:induction false} NoPredictionExceeds(m: Cadence, b: Bounds, h: History, n: nat, y: Vec)
    requires m.stride >= 1 && 0 < n <= |b.acceleration| && h.Within(b)
    ensures y.Dot(Predicted(m, h, n)) <= PredictedSupport(m, b, n, y)
    decreases n, 0
  {
    hide Vec.Dot;
    hide Cadence.Push;
    hide Cadence.Predict;
    hide Cadence.PredictT;
    var s := State(m, h, n - 1);
    NoHistoryExceeds(m, b, h, n - 1, m.PredictT(y));
    DotAdd(y, m.Predict(s), h.acceleration[n - 1], m.Push());
    AdjointPredict(m, y, s);
  }

  // ---------- the adversary ----------

  function Sign(x: real): real {
    if x >= 0.0 then 1.0 else -1.0
  }

  /** An error of the given size, in the direction of x. */
  function Signed(bound: real, x: real): real {
    bound * Sign(x)
  }

  datatype Choice = Choice(acceleration: real, pressure: real)

  /** The covector that reaches the interval of step n, after undoing its correction. */
  function BeforeCorrection(m: Cadence, n: nat, y: Vec): Vec
    requires m.stride >= 1
  {
    if m.Corrects(n) then m.CorrectT(y) else y
  }

  function ChoiceAt(m: Cadence, b: Bounds, n: nat, y: Vec): Choice
    requires m.stride >= 1 && 0 < n <= |b.acceleration|
  {
    Choice(Signed(b.acceleration[n - 1], BeforeCorrection(m, n, y).Dot(m.Push())),
           if m.Corrects(n) then Signed(b.pressure, y.Dot(m.Gain())) else 0.0)
  }

  /** The box corner picked by the adjoint, step by step. */
  function Adversary(m: Cadence, b: Bounds, n: nat, y: Vec): (cs: seq<Choice>)
    requires m.stride >= 1 && n <= |b.acceleration|
    ensures |cs| == n
  {
    if n == 0 then []
    else Adversary(m, b, n - 1, m.PredictT(BeforeCorrection(m, n, y))) + [ChoiceAt(m, b, n, y)]
  }

  function Root(m: Cadence, n: nat, y: Vec): Vec
    requires m.stride >= 1
  {
    if n == 0 then y else Root(m, n - 1, m.PredictT(BeforeCorrection(m, n, y)))
  }

  /** One replayed step: predict with the chosen acceleration, then correct with the chosen pressure. */
  function Advance(m: Cadence, s: Vec, c: Choice, n: nat): Vec
    requires m.stride >= 1
  {
    var p := Add(m.Predict(s), c.acceleration, m.Push());
    if m.Corrects(n) then Add(p, c.pressure - p.z, m.Gain()) else p
  }

  /** The state a list of choices leads to. */
  function Replay(m: Cadence, start: Vec, cs: seq<Choice>): Vec
    requires m.stride >= 1
  {
    if cs == [] then start
    else Advance(m, Replay(m, start, cs[..|cs| - 1]), cs[|cs| - 1], |cs|)
  }

  function Corner(b: Bounds, y: Vec): Vec {
    Vec(Signed(b.z0, y.z), Signed(b.v0, y.v))
  }

  /** Replaying the adjoint's choices reaches the support exactly. */
  lemma {:induction false} AdversaryAttains(m: Cadence, b: Bounds, n: nat, y: Vec)
    requires m.stride >= 1 && n <= |b.acceleration|
    ensures y.Dot(Replay(m, Corner(b, Root(m, n, y)), Adversary(m, b, n, y))) == Support(m, b, n, y)
    decreases n
  {
    if n == 0 {
    } else {
      hide Vec.Dot;
      hide Support;
      hide ChoiceAt;
      hide Advance;
      hide Corner;
      var next := m.PredictT(BeforeCorrection(m, n, y));
      var start := Corner(b, Root(m, n, y));
      AdversaryAttains(m, b, n - 1, next);
      var cs := Adversary(m, b, n, y);
      assert cs[..n - 1] == Adversary(m, b, n - 1, next);
      assert cs[n - 1] == ChoiceAt(m, b, n, y);
      AttainStep(m, b, n, y, Replay(m, start, cs[..n - 1]));
    }
  }

  lemma AttainStep(m: Cadence, b: Bounds, n: nat, y: Vec, before: Vec)
    requires m.stride >= 1 && 0 < n <= |b.acceleration|
    requires var next := m.PredictT(BeforeCorrection(m, n, y)); next.Dot(before) == Support(m, b, n - 1, next)
    ensures y.Dot(Advance(m, before, ChoiceAt(m, b, n, y), n)) == Support(m, b, n, y)
  {
    hide Vec.Dot;
    hide Cadence.Push;
    hide Cadence.Gain;
    hide Cadence.Predict;
    hide Cadence.PredictT;
    hide Cadence.CorrectT;
    hide Cadence.Kz;
    hide Cadence.Kv;
    hide Add;
    hide Reach;
    hide Signed;
    var c := ChoiceAt(m, b, n, y);
    AttainPrediction(m, b, n, BeforeCorrection(m, n, y), before);
    if m.Corrects(n) {
      AttainCorrection(m, b, y, Add(m.Predict(before), c.acceleration, m.Push()), c.pressure);
    }
  }

  lemma AttainPrediction(m: Cadence, b: Bounds, n: nat, y: Vec, before: Vec)
    requires m.stride >= 1 && 0 < n <= |b.acceleration|
    requires m.PredictT(y).Dot(before) == Support(m, b, n - 1, m.PredictT(y))
    ensures y.Dot(Add(m.Predict(before), Signed(b.acceleration[n - 1], y.Dot(m.Push())), m.Push()))
         == PredictedSupport(m, b, n, y)
  {
    hide Vec.Dot;
    hide Cadence.Push;
    hide Cadence.Predict;
    hide Cadence.PredictT;
    DotAdd(y, m.Predict(before), Signed(b.acceleration[n - 1], y.Dot(m.Push())), m.Push());
    AdjointPredict(m, y, before);
  }

  lemma AttainCorrection(m: Cadence, b: Bounds, y: Vec, s: Vec, p: real)
    requires p == Signed(b.pressure, y.Dot(m.Gain()))
    ensures y.Dot(Add(s, p - s.z, m.Gain())) == Reach(y.Dot(m.Gain()), b.pressure) + m.CorrectT(y).Dot(s)
  {
  }

  /** A start and a list of choices, read as a history. */
  function AsHistory(start: Vec, cs: seq<Choice>): (h: History)
    ensures |h.acceleration| == |h.pressure| == |cs|
  {
    History(start, seq(|cs|, i requires 0 <= i < |cs| => cs[i].acceleration),
        seq(|cs|, i requires 0 <= i < |cs| => cs[i].pressure))
  }

  lemma {:induction false} ReplayIsState(m: Cadence, start: Vec, cs: seq<Choice>, n: nat)
    requires m.stride >= 1 && n <= |cs|
    ensures State(m, AsHistory(start, cs), n) == Replay(m, start, cs[..n])
  {
    if n > 0 {
      ReplayIsState(m, start, cs, n - 1);
      assert cs[..n][..n - 1] == cs[..n - 1];
    }
  }

  lemma {:induction false} AdversaryWithin(m: Cadence, b: Bounds, n: nat, y: Vec)
    requires m.stride >= 1 && n <= |b.acceleration| && b.NonNegative()
    ensures forall i :: 0 <= i < n ==> Abs(Adversary(m, b, n, y)[i].acceleration) <= b.acceleration[i]
    ensures forall i :: 0 <= i < n ==> Abs(Adversary(m, b, n, y)[i].pressure) <= b.pressure
  {
    if n > 0 {
      AdversaryWithin(m, b, n - 1, m.PredictT(BeforeCorrection(m, n, y)));
    }
  }

  /** The columns give the exact worst case of |y . error|: it bounds every admissible history and one attains it. */
  lemma WidthIsExact(m: Cadence, b: Bounds, y: Vec)
    requires m.stride >= 1 && b.NonNegative()
    ensures forall h: History :: h.Within(b) ==>
              Abs(y.Dot(State(m, h, |b.acceleration|))) <= Width(Columns(m, b, |b.acceleration|), y)
    ensures exists h: History :: h.Within(b) &&
              y.Dot(State(m, h, |b.acceleration|)) == Width(Columns(m, b, |b.acceleration|), y)
  {
    var n := |b.acceleration|;
    WidthIsSupport(m, b, n, y);
    forall h: History | h.Within(b)
      ensures Abs(y.Dot(State(m, h, n))) <= Width(Columns(m, b, n), y)
    {
      BothSigns(m, b, h, n, y);
    }
    var start, cs := Corner(b, Root(m, n, y)), Adversary(m, b, n, y);
    AdversaryAttains(m, b, n, y);
    ReplayIsState(m, start, cs, n);
    AdversaryWithin(m, b, n, y);
    assert cs[..n] == cs;
    assert AsHistory(start, cs).Within(b);
  }

  function Negate(y: Vec): Vec {
    Vec(-y.z, -y.v)
  }

  lemma {:induction false} WidthNegate(cs: seq<Vec>, y: Vec)
    ensures Width(cs, Negate(y)) == Width(cs, y)
  {
    if cs != [] {
      WidthNegate(cs[1..], y);
      NegateDot(y, cs[0]);
    }
  }

  lemma NegateDot(y: Vec, s: Vec)
    ensures Negate(y).Dot(s) == -y.Dot(s)
  {
  }

  /** The bound holds for both signs, hence for the absolute value. */
  lemma BothSigns(m: Cadence, b: Bounds, h: History, n: nat, y: Vec)
    requires m.stride >= 1 && n <= |b.acceleration| && b.NonNegative() && h.Within(b)
    ensures Abs(y.Dot(State(m, h, n))) <= Width(Columns(m, b, n), y)
    ensures n > 0 ==> Abs(y.Dot(Predicted(m, h, n))) <= Width(PredictedColumns(m, b, n), y)
  {
    hide Columns;
    hide PredictedColumns;
    hide State;
    hide Predicted;
    hide Support;
    hide PredictedSupport;
    hide Width;
    hide Vec.Dot;
    hide Negate;
    WidthIsSupport(m, b, n, y);
    WidthIsSupport(m, b, n, Negate(y));
    WidthNegate(Columns(m, b, n), y);
    NoHistoryExceeds(m, b, h, n, y);
    NoHistoryExceeds(m, b, h, n, Negate(y));
    NegateDot(y, State(m, h, n));
    if n > 0 {
      WidthNegate(PredictedColumns(m, b, n), y);
      NegateDot(y, Predicted(m, h, n));
    }
  }
}
