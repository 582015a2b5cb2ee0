/** The velocity interval explained by an optical rate over a convex mixture of depths. */
module Flow {
  import opened Wrappers
  import opened Reals

  datatype FlowError = InvalidBounds | InvalidDepth

  datatype Patch = Patch(weight: real, depth: real)

  predicate Mixture(ps: seq<Patch>, near: real, far: real) {
    forall i :: 0 <= i < |ps| ==> ps[i].weight >= 0.0 && near <= ps[i].depth <= far
  }

  function TotalWeight(ps: seq<Patch>): real {
    if ps == [] then 0.0 else ps[0].weight + TotalWeight(ps[1..])
  }

  function Share(p: Patch): real
    requires p.depth > 0.0
  {
    p.weight / p.depth
  }

  /** The inverse depth the sensor sees: the weighted mean of 1/depth. */
  function InverseDepth(ps: seq<Patch>, near: real, far: real): real
    requires 0.0 < near && Mixture(ps, near, far)
  {
    if ps == [] then 0.0 else Share(ps[0]) + InverseDepth(ps[1..], near, far)
  }

  /** The velocity that a rate corrected for noise means at one depth. */
  function At(rate: real, depth: real): real {
    rate * depth
  }

  function FlowInterval(rate: real, near: real, far: real, noise: real): Result<(real, real), FlowError> {
    if near < 0.0 || far < 0.0 || noise < 0.0 then Err(InvalidBounds)
    else if near <= 0.0 || far < near then Err(InvalidDepth)
    else
      var a, b, c, d := At(rate - noise, near), At(rate - noise, far), At(rate + noise, near), At(rate + noise, far);
      Ok((Min4(a, b, c, d), Max4(a, b, c, d)))
  }

  /** Accepted exactly for a proper range of positive depths and a nonnegative noise. */
  lemma FlowAccepted(rate: real, near: real, far: real, noise: real)
    ensures FlowInterval(rate, near, far, noise).Ok? <==> 0.0 < near <= far && 0.0 <= noise
    ensures near < 0.0 || far < 0.0 || noise < 0.0 ==> FlowInterval(rate, near, far, noise) == Err(InvalidBounds)
    ensures 0.0 <= near && 0.0 <= far && 0.0 <= noise && (near == 0.0 || far < near) ==>
              FlowInterval(rate, near, far, noise) == Err(InvalidDepth)
  {
    hide At;
  }

  lemma {:induction false} InverseDepthBounds(ps: seq<Patch>, near: real, far: real)
    requires 0.0 < near <= far && Mixture(ps, near, far)
    ensures Product(near, InverseDepth(ps, near, far)) <= TotalWeight(ps) <= Product(far, InverseDepth(ps, near, far))
  {
    if ps == [] {
      Nothing(near);
      Nothing(far);
    } else {
      assert Mixture(ps[1..], near, far);
      InverseDepthBounds(ps[1..], near, far);
      ShareBounds(ps[0], near, far);
      hide Share;
      hide Product;
      Distributes(near, Share(ps[0]), InverseDepth(ps[1..], near, far));
      Distributes(far, Share(ps[0]), InverseDepth(ps[1..], near, far));
    }
  }

  lemma ShareBounds(p: Patch, near: real, far: real)
    requires 0.0 < near <= p.depth <= far && p.weight >= 0.0
    ensures Product(near, Share(p)) <= p.weight <= Product(far, Share(p))
  {
    var s := Share(p);
    assert s * p.depth == p.weight;
    if s < 0.0 {
      MulPositive(-s, p.depth);
    }
    ProductMonotone(near, p.depth, s);
    ProductMonotone(p.depth, far, s);
    assert Product(p.depth, s) == p.weight;
  }

  lemma Nothing(k: real)
    ensures Product(k, 0.0) == 0.0
  {
  }

  lemma Distributes(k: real, x: real, y: real)
    ensures Product(k, x + y) == Product(k, x) + Product(k, y)
  {
  }

  lemma BilinearCorners(x: real, xlo: real, xhi: real, d: real, dlo: real, dhi: real)
    requires xlo <= x <= xhi && 0.0 <= dlo <= d <= dhi
    ensures Min(At(xlo, dlo), At(xlo, dhi)) <= At(x, d) <= Max(At(xhi, dlo), At(xhi, dhi))
  {
    MulMonotone(xlo, x, d);
    MulMonotone(x, xhi, d);
    assert At(xlo, d) <= At(x, d) <= At(xhi, d);
    hide At;
    BetweenCorners(xlo, d, dlo, dhi);
    BetweenCorners(xhi, d, dlo, dhi);
  }

  lemma BetweenCorners(x: real, d: real, dlo: real, dhi: real)
    requires dlo <= d <= dhi
    ensures Min(At(x, dlo), At(x, dhi)) <= At(x, d) <= Max(At(x, dlo), At(x, dhi))
  {
    if x >= 0.0 {
    } else {
      AtFalls(x, dlo, d);
      AtFalls(x, d, dhi);
    }
    hide At;
  }

  lemma AtFalls(x: real, d: real, e: real)
    requires x <= 0.0 && d <= e
    ensures At(x, d) >= At(x, e)
  {
  }

  /** Every velocity that explains the measured rate over some mixture of admitted depths is in the interval. */
  lemma FlowIntervalEncloses(rate: real, near: real, far: real, noise: real, ps: seq<Patch>, velocity: real,
                             error: real)
    requires 0.0 < near <= far && noise >= 0.0
    requires Mixture(ps, near, far) && TotalWeight(ps) == 1.0
    requires -noise <= error <= noise && rate == velocity * InverseDepth(ps, near, far) + error
    ensures FlowInterval(rate, near, far, noise).Ok?
    ensures var r := FlowInterval(rate, near, far, noise).value; r.0 <= velocity <= r.1
  {
    hide *;
    InverseDepthBounds(ps, near, far);
    SeenThrough(rate, near, far, noise, InverseDepth(ps, near, far), velocity, error);
  }

  /** The same, for the inverse depth that the sensor sees. */
  lemma SeenThrough(rate: real, near: real, far: real, noise: real, s: real, velocity: real, error: real)
    requires 0.0 < near <= far && Product(near, s) <= 1.0 <= Product(far, s)
    requires -noise <= error <= noise && rate == velocity * s + error
    ensures FlowInterval(rate, near, far, noise).Ok?
    ensures var r := FlowInterval(rate, near, far, noise).value; r.0 <= velocity <= r.1
  {
    hide At;
    hide FlowInterval;
    CancelStrict(0.0, s, far);
    var d := EffectiveDepth(s, near, far, rate - error, velocity);
    CornersEnclose(rate, near, far, noise, rate - error, d);
  }

  lemma CornersEnclose(rate: real, near: real, far: real, noise: real, x: real, d: real)
    requires 0.0 < near <= d <= far && rate - noise <= x <= rate + noise
    ensures FlowInterval(rate, near, far, noise).Ok?
    ensures var r := FlowInterval(rate, near, far, noise).value; r.0 <= At(x, d) <= r.1
  {
    hide At;
    BilinearCorners(x, rate - noise, rate + noise, d, near, far);
  }

  lemma EffectiveDepth(s: real, near: real, far: real, rate: real, velocity: real) returns (d: real)
    requires s > 0.0 && near * s <= 1.0 <= far * s && rate == velocity * s
    ensures near <= d <= far && velocity == At(rate, d)
  {
    d := 1.0 / s;
    assert d * s == 1.0;
    Cancel(near, d, s);
    Cancel(d, far, s);
    assert rate * d == velocity * (d * s);
  }

  /** The rate a single-depth scene would give. */
  predicate Explains(rate: real, velocity: real, depth: real, error: real) {
    depth > 0.0 && rate == velocity * (1.0 / depth) + error
  }

  ghost predicate Attained(rate: real, near: real, far: real, noise: real, velocity: real) {
    exists error, depth :: near <= depth <= far && Abs(error) <= noise && Explains(rate, velocity, depth, error)
  }

  /** Both ends of the interval are attained by a single-depth scene and an extreme noise. */
  lemma FlowIntervalAttained(rate: real, near: real, far: real, noise: real)
    requires 0.0 < near <= far && noise >= 0.0
    ensures Attained(rate, near, far, noise, FlowInterval(rate, near, far, noise).value.0)
    ensures Attained(rate, near, far, noise, FlowInterval(rate, near, far, noise).value.1)
  {
    var r := FlowInterval(rate, near, far, noise).value;
    CornerAttained(rate, near, far, noise, r.0);
    CornerAttained(rate, near, far, noise, r.1);
  }

  lemma CornerAttained(rate: real, near: real, far: real, noise: real, velocity: real)
    requires 0.0 < near <= far && noise >= 0.0
    requires velocity in {At(rate - noise, near), At(rate - noise, far), At(rate + noise, near), At(rate + noise, far)}
    ensures Attained(rate, near, far, noise, velocity)
  {
    var error := if velocity == At(rate - noise, near) || velocity == At(rate - noise, far) then noise else -noise;
    var depth := if velocity == At(rate - error, near) then near else far;
    SingleDepth(rate, velocity, depth, error);
  }

  lemma SingleDepth(rate: real, velocity: real, depth: real, error: real)
    requires depth > 0.0 && velocity == At(rate - error, depth)
    ensures Explains(rate, velocity, depth, error)
  {
  }
}
