/**
 The exact clock polygon of the metric reference: all affine clocks (rate, offset)
 compatible with a list of synchronisation observations, kept as a convex polygon
 that is clipped against two half-planes per observation.
 */
module ClockPolygon {
  import opened Wrappers

  /** An affine clock, device = rate * reference + offset; also a point of the clock plane. */
  datatype Clock = Clock(rate: real, offset: real) {
    function Image(t: real): real {
      rate * t + offset
    }
  }

  /** The affine functional a*rate + b*offset - c; the half-plane of a clip is where it is at most 0. */
  datatype Affine = Affine(a: real, b: real, c: real) {
    function Eval(v: Clock): real {
      a * v.rate + b * v.offset - c
    }

    predicate Inside(v: Clock) {
      Eval(v) <= 0.0
    }
  }

  // ---------- the clip ----------

  function Between(p: Clock, q: Clock, r: real): Clock {
    Clock(p.rate + r * (q.rate - p.rate), p.offset + r * (q.offset - p.offset))
  }

  /** The point where the edge from p to q meets the boundary of h. */
  function Crossing(p: Clock, q: Clock, h: Affine): Clock
    requires h.Eval(p) != h.Eval(q)
  {
    Between(p, q, h.Eval(p) / (h.Eval(p) - h.Eval(q)))
  }

  function EdgeCrossing(p: Clock, q: Clock, h: Affine): seq<Clock> {
    if h.Inside(p) != h.Inside(q) then [Crossing(p, q, h)] else []
  }

  function Kept(q: Clock, h: Affine): seq<Clock> {
    if h.Inside(q) then [q] else []
  }

  /** The vertex before position k on the closed chain. */
  function Prev(vs: seq<Clock>, k: nat): Clock
    requires k < |vs|
  {
    if k == 0 then vs[|vs| - 1] else vs[k - 1]
  }

  function ClipStep(p: Clock, q: Clock, h: Affine): seq<Clock> {
    EdgeCrossing(p, q, h) + Kept(q, h)
  }

  function ClipPrefix(vs: seq<Clock>, h: Affine, n: nat): seq<Clock>
    requires n <= |vs|
  {
    if n == 0 then [] else ClipPrefix(vs, h, n - 1) + ClipStep(Prev(vs, n - 1), vs[n - 1], h)
  }

  /** First occurrences, in order: what building a dictionary from the keys keeps. */
  function Dedup(s: seq<Clock>): (d: seq<Clock>)
    ensures forall v :: v in d <==> v in s
    ensures forall i, j :: 0 <= i < j < |d| ==> d[i] != d[j]
  {
    if s == [] then []
    else
      var front := Dedup(s[..|s| - 1]);
      assert s == s[..|s| - 1] + [s[|s| - 1]];
      if s[|s| - 1] in front then front else front + [s[|s| - 1]]
  }

  function Clipped(vs: seq<Clock>, h: Affine): seq<Clock> {
    Dedup(ClipPrefix(vs, h, |vs|))
  }

  lemma StepIs(p: Clock, q: Clock, h: Affine)
    ensures var dp, dc := h.Eval(p), h.Eval(q);
            && ((dp <= 0.0) != (dc <= 0.0) ==> dp - dc != 0.0)
            && ClipStep(p, q, h) == (if (dp <= 0.0) != (dc <= 0.0) then [Between(p, q, dp / (dp - dc))] else [])
                                    + (if dc <= 0.0 then [q] else [])
  {
    hide Affine.Eval;
    hide Between;
  }

  method Clip(vertices: seq<Clock>, h: Affine) returns (result: seq<Clock>)
    ensures result == Clipped(vertices, h)
  {
    hide Affine.Eval;
    hide ClipStep;
    hide Between;
    if |vertices| == 0 {
      return [];
    }
    var raw: seq<Clock> := [];
    var previous := vertices[|vertices| - 1];
    var dp := h.Eval(previous);
    for k := 0 to |vertices|
      invariant previous == if k == 0 then vertices[|vertices| - 1] else vertices[k - 1]
      invariant dp == h.Eval(previous)
      invariant raw == ClipPrefix(vertices, h, k)
    {
      var current := vertices[k];
      ghost var before := raw;
      var dc := h.Eval(current);
      StepIs(previous, current, h);
      if (dp <= 0.0) != (dc <= 0.0) {
        var ratio := dp / (dp - dc);
        raw := raw + [Between(previous, current, ratio)];
      }
      if dc <= 0.0 {
        raw := raw + [current];
      }
      assert raw == before + ClipStep(previous, current, h);
      previous, dp := current, dc;
    }
    result := Dedup(raw);
  }

  // ---------- values of functionals on a crossing ----------

  /** The wedge of two points in the plane (g, h); positive when the segment meets h == 0 at a positive g. */
  function Wedge(g: Affine, h: Affine, p: Clock, q: Clock): real {
    g.Eval(p) * h.Eval(q) - g.Eval(q) * h.Eval(p)
  }

  lemma CrossingOnBoundary(h: Affine, p: Clock, q: Clock)
    requires h.Inside(p) != h.Inside(q)
    ensures h.Eval(Crossing(p, q, h)) == 0.0
  {
  }

  lemma CrossingWedge(g: Affine, h: Affine, p: Clock, q: Clock)
    requires h.Inside(p) != h.Inside(q)
    ensures g.Eval(Crossing(p, q, h)) * (h.Eval(q) - h.Eval(p)) == Wedge(g, h, p, q)
  {
  }

  /** A crossing meets every constraint that both ends of its edge meet. */
  lemma CrossingInside(g: Affine, h: Affine, p: Clock, q: Clock)
    requires h.Inside(p) != h.Inside(q)
    requires g.Inside(p) && g.Inside(q)
    ensures g.Inside(Crossing(p, q, h))
  {
  }

  // ---------- soundness: every vertex of a clip satisfies the constraint and all earlier ones ----------

  predicate AllInside(vs: seq<Clock>, h: Affine) {
    forall v :: v in vs ==> h.Inside(v)
  }

  lemma {:induction false} PrefixInside(vs: seq<Clock>, h: Affine, g: Affine, n: nat)
    requires n <= |vs|
    ensures AllInside(ClipPrefix(vs, h, n), h)
    ensures AllInside(vs, g) ==> AllInside(ClipPrefix(vs, h, n), g)
  {
    hide AllInside;
    hide ClipStep;
    if n == 0 {
      NoneInside(h);
      NoneInside(g);
    } else {
      PrefixInside(vs, h, g, n - 1);
      var p, q := Prev(vs, n - 1), vs[n - 1];
      assert p in vs && q in vs;
      hide Affine.Inside;
      if AllInside(vs, g) {
        MemberInside(vs, g, p);
        MemberInside(vs, g, q);
      }
      StepInside(p, q, h, g);
      AllInsideBoth(ClipPrefix(vs, h, n - 1), ClipStep(p, q, h), h);
      AllInsideBoth(ClipPrefix(vs, h, n - 1), ClipStep(p, q, h), g);
    }
  }

  lemma NoneInside(h: Affine)
    ensures AllInside([], h)
  {
  }

  lemma MemberInside(vs: seq<Clock>, h: Affine, v: Clock)
    requires AllInside(vs, h) && v in vs
    ensures h.Inside(v)
  {
  }

  lemma StepInside(p: Clock, q: Clock, h: Affine, g: Affine)
    ensures AllInside(ClipStep(p, q, h), h)
    ensures g.Inside(p) && g.Inside(q) ==> AllInside(ClipStep(p, q, h), g)
  {
    hide Affine.Eval;
    hide Crossing;
    if h.Inside(p) != h.Inside(q) {
      CrossingOnBoundary(h, p, q);
      if g.Inside(p) && g.Inside(q) {
        CrossingInside(g, h, p, q);
      }
    }
  }

  lemma AllInsideBoth(a: seq<Clock>, b: seq<Clock>, h: Affine)
    ensures AllInside(a + b, h) <==> AllInside(a, h) && AllInside(b, h)
  {
    hide Affine.Inside;
    assert forall v :: v in a + b <==> v in a || v in b;
  }

  /** Clipping establishes the new constraint and keeps every constraint the polygon already met. */
  lemma ClippedInside(vs: seq<Clock>, h: Affine, g: Affine)
    ensures AllInside(Clipped(vs, h), h)
    ensures AllInside(vs, g) ==> AllInside(Clipped(vs, h), g)
  {
    PrefixInside(vs, h, g, |vs|);
  }

  // ---------- the order invariant ----------

  /** Twice the signed area of the triangle a, b, c: non-negative when the path turns left or goes straight. */
  function Orient(a: Clock, b: Clock, c: Clock): real {
    (b.rate - a.rate) * (c.offset - a.offset) - (b.offset - a.offset) * (c.rate - a.rate)
  }

  /** Ordered convexity, degenerate polygons included. */
  ghost predicate LeftTurns(s: seq<Clock>) {
    forall i, j, k :: 0 <= i < j < k < |s| ==> Orient(s[i], s[j], s[k]) >= 0.0
  }

  lemma OrientCyclic(a: Clock, b: Clock, c: Clock)
    ensures Orient(a, b, c) == Orient(b, c, a) == Orient(c, a, b)
  {
  }

  lemma WeightedNonNegative(r: real, x: real, y: real)
    requires 0.0 <= r <= 1.0 && x >= 0.0 && y >= 0.0
    ensures (1.0 - r) * x + r * y >= 0.0
  {
    assert (1.0 - r) * x >= 0.0;
    assert r * y >= 0.0;
  }

  lemma OrientBetweenNonNegative(a: Clock, b: Clock, p: Clock, q: Clock, r: real)
    requires 0.0 <= r <= 1.0
    requires Orient(a, b, p) >= 0.0 && Orient(a, b, q) >= 0.0
    ensures Orient(a, b, Between(p, q, r)) >= 0.0
    ensures Orient(Between(p, q, r), a, b) >= 0.0
    ensures Orient(b, Between(p, q, r), a) >= 0.0
  {
    WeightedNonNegative(r, Orient(a, b, p), Orient(a, b, q));
    OrientCyclic(a, b, Between(p, q, r));
  }

  function Insert(s: seq<Clock>, pos: nat, c: Clock): seq<Clock>
    requires pos <= |s|
  {
    s[..pos] + [c] + s[pos..]
  }

  /** The three vertices around an edge, in any cyclic position, see both ends of that edge on their left. */
  lemma EdgeSeenFrom(s: seq<Clock>, pos: nat, x: nat, y: nat)
    requires LeftTurns(s) && pos < |s| && x < y < |s|
    ensures y < pos ==> Orient(s[x], s[y], s[pos - 1]) >= 0.0 && Orient(s[x], s[y], s[pos]) >= 0.0
    ensures x < pos <= y ==> Orient(s[y], s[x], s[pos - 1]) >= 0.0 && Orient(s[y], s[x], s[pos]) >= 0.0
    ensures pos <= x ==> Orient(s[x], s[y], Prev(s, pos)) >= 0.0 && Orient(s[x], s[y], s[pos]) >= 0.0
  {
    if y < pos {
      assert Orient(s[x], s[y], s[pos]) >= 0.0;
      assert y == pos - 1 || Orient(s[x], s[y], s[pos - 1]) >= 0.0;
    } else if x < pos {
      OrientCyclic(s[y], s[x], s[pos - 1]);
      OrientCyclic(s[y], s[x], s[pos]);
      assert x == pos - 1 || Orient(s[x], s[pos - 1], s[y]) >= 0.0;
      assert y == pos || Orient(s[x], s[pos], s[y]) >= 0.0;
    } else {
      var z := if pos == 0 then |s| - 1 else pos - 1;
      OrientCyclic(s[x], s[y], s[z]);
      OrientCyclic(s[x], s[y], s[pos]);
      assert y == z || pos != 0 || Orient(s[x], s[y], s[z]) >= 0.0;
      assert pos == 0 || Orient(s[z], s[x], s[y]) >= 0.0;
      assert pos == x || Orient(s[pos], s[x], s[y]) >= 0.0;
    }
  }

  /** A point inserted on the edge where it lies keeps the order. */
  lemma InsertKeepsLeftTurns(s: seq<Clock>, pos: nat, r: real)
    requires LeftTurns(s) && pos < |s| && 0.0 <= r <= 1.0
    ensures LeftTurns(Insert(s, pos, Between(Prev(s, pos), s[pos], r)))
  {
    var t := Insert(s, pos, Between(Prev(s, pos), s[pos], r));
    forall i, j, k | 0 <= i < j < k < |t|
      ensures Orient(t[i], t[j], t[k]) >= 0.0
    {
      InsertedTurn(s, pos, r, i, j, k);
    }
  }

  lemma InsertedAt(s: seq<Clock>, pos: nat, c: Clock, i: nat)
    requires pos < |s| && i < |s| + 1
    ensures Insert(s, pos, c)[i] == if i < pos then s[i] else if i == pos then c else s[i - 1]
  {
  }

  lemma InsertedTurn(s: seq<Clock>, pos: nat, r: real, i: nat, j: nat, k: nat)
    requires LeftTurns(s) && pos < |s| && 0.0 <= r <= 1.0 && i < j < k < |s| + 1
    ensures var t := Insert(s, pos, Between(Prev(s, pos), s[pos], r)); Orient(t[i], t[j], t[k]) >= 0.0
  {
    hide Orient;
    hide Between;
    hide LeftTurns;
    hide Insert;
    var p, q := Prev(s, pos), s[pos];
    InsertedAt(s, pos, Between(p, q, r), i);
    InsertedAt(s, pos, Between(p, q, r), j);
    InsertedAt(s, pos, Between(p, q, r), k);
    if k == pos {
      EdgeSeenFrom(s, pos, i, j);
      OrientBetweenNonNegative(s[i], s[j], p, q, r);
    } else if j == pos {
      EdgeSeenFrom(s, pos, i, k - 1);
      OrientBetweenNonNegative(s[k - 1], s[i], p, q, r);
    } else if i == pos {
      EdgeSeenFrom(s, pos, j - 1, k - 1);
      OrientBetweenNonNegative(s[j - 1], s[k - 1], p, q, r);
    } else {
      TurnAt(s, if i < pos then i else i - 1, if j < pos then j else j - 1, if k < pos then k else k - 1);
    }
  }

  lemma TurnAt(s: seq<Clock>, i: nat, j: nat, k: nat)
    requires LeftTurns(s) && i < j < k < |s|
    ensures Orient(s[i], s[j], s[k]) >= 0.0
  {
  }

  lemma DeleteKeepsLeftTurns(a: seq<Clock>, x: Clock, b: seq<Clock>)
    requires LeftTurns(a + [x] + b)
    ensures LeftTurns(a + b)
  {
    var s, t := a + [x] + b, a + b;
    forall i, j, k | 0 <= i < j < k < |t|
      ensures Orient(t[i], t[j], t[k]) >= 0.0
    {
      var i', j', k' := if i < |a| then i else i + 1, if j < |a| then j else j + 1, if k < |a| then k else k + 1;
      assert t[i] == s[i'] && t[j] == s[j'] && t[k] == s[k'];
    }
  }

  /** The chain with every boundary crossing inserted and no vertex dropped yet. */
  function Refined(vs: seq<Clock>, h: Affine, n: nat): seq<Clock>
    requires n <= |vs|
  {
    if n == 0 then []
    else Refined(vs, h, n - 1) + EdgeCrossing(Prev(vs, n - 1), vs[n - 1], h) + [vs[n - 1]]
  }

  lemma InsertAtSeam(done: seq<Clock>, c: Clock, q: Clock, rest: seq<Clock>)
    ensures Insert(done + ([q] + rest), |done|, c) == done + [c] + [q] + rest
  {
  }

  lemma {:induction false} RefinedLeftTurns(vs: seq<Clock>, h: Affine, n: nat)
    requires LeftTurns(vs) && n <= |vs|
    ensures LeftTurns(Refined(vs, h, n) + vs[n..])
    ensures n > 0 ==> |Refined(vs, h, n)| > 0 && Refined(vs, h, n)[|Refined(vs, h, n)| - 1] == vs[n - 1]
  {
    hide LeftTurns;
    hide EdgeCrossing;
    if n == 0 {
      assert Refined(vs, h, 0) + vs[0..] == vs;
    } else {
      RefinedLeftTurns(vs, h, n - 1);
      var done := Refined(vs, h, n - 1);
      var p, q := Prev(vs, n - 1), vs[n - 1];
      assert vs[n - 1..] == [q] + vs[n..];
      assert Prev(done + ([q] + vs[n..]), |done|) == p;
      RefinedStep(done, p, q, vs[n..], h);
    }
  }

  /** Inserting the crossing of one edge, if there is one. */
  lemma RefinedStep(done: seq<Clock>, p: Clock, q: Clock, rest: seq<Clock>, h: Affine)
    requires LeftTurns(done + ([q] + rest)) && Prev(done + ([q] + rest), |done|) == p
    ensures LeftTurns(done + EdgeCrossing(p, q, h) + [q] + rest)
  {
    hide LeftTurns;
    hide Affine.Eval;
    var s := done + ([q] + rest);
    if h.Inside(p) != h.Inside(q) {
      var r := h.Eval(p) / (h.Eval(p) - h.Eval(q));
      InsertKeepsLeftTurns(s, |done|, r);
      InsertAtSeam(done, Between(p, q, r), q, rest);
    } else {
      assert s == done + [] + [q] + rest;
    }
  }

  function Filter(s: seq<Clock>, h: Affine): seq<Clock> {
    if s == [] then [] else Filter(s[..|s| - 1], h) + Kept(s[|s| - 1], h)
  }

  lemma {:induction false} FilterKeepsLeftTurns(a: seq<Clock>, h: Affine, b: seq<Clock>)
    requires LeftTurns(a + b)
    ensures LeftTurns(Filter(a, h) + b)
  {
    if a == [] {
      assert Filter(a, h) + b == a + b;
    } else {
      var front, x := a[..|a| - 1], a[|a| - 1];
      assert a + b == front + ([x] + b) == front + [x] + b;
      if h.Inside(x) {
        FilterKeepsLeftTurns(front, h, [x] + b);
        assert Filter(a, h) + b == Filter(front, h) + ([x] + b);
      } else {
        DeleteKeepsLeftTurns(front, x, b);
        FilterKeepsLeftTurns(front, h, b);
        assert Filter(a, h) == Filter(front, h) + [] == Filter(front, h);
      }
    }
  }

  lemma {:induction false} DedupKeepsLeftTurns(a: seq<Clock>, b: seq<Clock>)
    requires LeftTurns(a + b)
    ensures LeftTurns(Dedup(a) + b)
  {
    if a == [] {
      assert Dedup(a) + b == a + b;
    } else {
      var front, x := a[..|a| - 1], a[|a| - 1];
      assert a + b == front + ([x] + b) == front + [x] + b;
      if x in Dedup(front) {
        DeleteKeepsLeftTurns(front, x, b);
        DedupKeepsLeftTurns(front, b);
      } else {
        DedupKeepsLeftTurns(front, [x] + b);
        assert Dedup(a) + b == Dedup(front) + ([x] + b);
      }
    }
  }

  lemma {:induction false} FilterAppend(s: seq<Clock>, t: seq<Clock>, h: Affine)
    ensures Filter(s + t, h) == Filter(s, h) + Filter(t, h)
  {
    if t == [] {
      assert s + t == s;
    } else {
      var front := t[..|t| - 1];
      assert (s + t)[..|s + t| - 1] == s + front;
      FilterAppend(s, front, h);
    }
  }

  lemma FilterStep(p: Clock, q: Clock, h: Affine)
    ensures Filter(EdgeCrossing(p, q, h) + [q], h) == ClipStep(p, q, h)
  {
    hide Affine.Eval;
    hide Crossing;
    var e := EdgeCrossing(p, q, h);
    FilterAppend(e, [q], h);
    assert Filter([q], h) == Kept(q, h);
    if h.Inside(p) != h.Inside(q) {
      CrossingOnBoundary(h, p, q);
    }
    assert Filter(e, h) == e;
  }

  lemma {:induction false} PrefixIsFilteredRefinement(vs: seq<Clock>, h: Affine, n: nat)
    requires n <= |vs|
    ensures ClipPrefix(vs, h, n) == Filter(Refined(vs, h, n), h)
  {
    hide Filter;
    hide EdgeCrossing;
    hide ClipStep;
    if n == 0 {
      FilterNothing(h);
    } else {
      PrefixIsFilteredRefinement(vs, h, n - 1);
      var done := Refined(vs, h, n - 1);
      var p, q := Prev(vs, n - 1), vs[n - 1];
      assert Refined(vs, h, n) == done + (EdgeCrossing(p, q, h) + [q]);
      FilterAppend(done, EdgeCrossing(p, q, h) + [q], h);
      FilterStep(p, q, h);
    }
  }

  lemma FilterNothing(h: Affine)
    ensures Filter([], h) == []
  {
  }

  /** Clipping keeps ordered convexity, through crossings, dropped vertices and de-duplication alike. */
  lemma ClippedLeftTurns(vs: seq<Clock>, h: Affine)
    requires LeftTurns(vs)
    ensures LeftTurns(Clipped(vs, h))
  {
    var n := |vs|;
    RefinedLeftTurns(vs, h, n);
    assert Refined(vs, h, n) + vs[n..] == Refined(vs, h, n) + [];
    FilterKeepsLeftTurns(Refined(vs, h, n), h, []);
    PrefixIsFilteredRefinement(vs, h, n);
    DedupKeepsLeftTurns(ClipPrefix(vs, h, n), []);
    assert Clipped(vs, h) + [] == Clipped(vs, h);
  }

  // ---------- completeness: no admissible point is lost ----------

  /** p lies in the convex hull of vs: no affine functional that is non-negative on vs is negative at p. */
  ghost predicate InHull(vs: seq<Clock>, p: Clock) {
    forall g: Affine :: (forall v :: v in vs ==> g.Eval(v) >= 0.0) ==> g.Eval(p) >= 0.0
  }

  lemma {:induction false} PrefixMembers(vs: seq<Clock>, h: Affine, n: nat, k: nat)
    requires k < n <= |vs|
    ensures h.Inside(vs[k]) ==> vs[k] in ClipPrefix(vs, h, n)
    ensures h.Inside(Prev(vs, k)) != h.Inside(vs[k]) ==> Crossing(Prev(vs, k), vs[k], h) in ClipPrefix(vs, h, n)
  {
    hide Crossing;
    hide Affine.Eval;
    hide ClipStep;
    if k < n - 1 {
      PrefixMembers(vs, h, n - 1, k);
    } else {
      StepMembers(Prev(vs, k), vs[k], h);
    }
  }

  lemma StepMembers(p: Clock, q: Clock, h: Affine)
    ensures h.Inside(q) ==> q in ClipStep(p, q, h)
    ensures h.Inside(p) != h.Inside(q) ==> Crossing(p, q, h) in ClipStep(p, q, h)
  {
    hide Crossing;
    hide Affine.Eval;
  }

  lemma ClippedMembers(vs: seq<Clock>, h: Affine, k: nat)
    requires k < |vs|
    ensures h.Inside(vs[k]) ==> vs[k] in Clipped(vs, h)
    ensures h.Inside(Prev(vs, k)) != h.Inside(vs[k]) ==> Crossing(Prev(vs, k), vs[k], h) in Clipped(vs, h)
  {
    PrefixMembers(vs, h, |vs|, k);
  }

  lemma {:induction false} SideSpreads(vs: seq<Clock>, h: Affine, side: bool, i: nat, j: nat)
    requires i <= j < |vs| && h.Inside(vs[i]) == side
    requires forall k :: 0 <= k < |vs| && h.Inside(Prev(vs, k)) == side ==> h.Inside(vs[k]) == side
    ensures h.Inside(vs[j]) == side
  {
    if i < j {
      SideSpreads(vs, h, side, i, j - 1);
      assert Prev(vs, j) == vs[j - 1];
    }
  }

  /** A closed chain with vertices on both sides leaves each side somewhere. */
  lemma LeavesSide(vs: seq<Clock>, h: Affine, side: bool, i: nat, j: nat) returns (k: nat)
    requires i < |vs| && j < |vs|
    requires h.Inside(vs[i]) == side && h.Inside(vs[j]) != side
    ensures k < |vs| && h.Inside(Prev(vs, k)) == side && h.Inside(vs[k]) != side
  {
    if forall m :: 0 <= m < |vs| && h.Inside(Prev(vs, m)) == side ==> h.Inside(vs[m]) == side {
      SideSpreads(vs, h, side, i, |vs| - 1);
      assert h.Inside(Prev(vs, 0)) == side;
      SideSpreads(vs, h, side, 0, j);
      assert false;
    }
    k :| 0 <= k < |vs| && h.Inside(Prev(vs, k)) == side && h.Inside(vs[k]) != side;
  }

  /** Orientation in the plane (g, h) is orientation in the clock plane times the determinant of the map. */
  lemma OrientImage(g: Affine, h: Affine, x: Clock, y: Clock, v: Clock)
    ensures (g.Eval(y) - g.Eval(x)) * (h.Eval(v) - h.Eval(x)) - (h.Eval(y) - h.Eval(x)) * (g.Eval(v) - g.Eval(x))
         == (g.a * h.b - g.b * h.a) * Orient(x, y, v)
  {
  }

  lemma SameSign(d: real, o: real)
    requires o >= 0.0
    ensures d >= 0.0 ==> d * o >= 0.0
    ensures d <= 0.0 ==> d * o <= 0.0
  {
  }

  /** Cyclically consecutive vertices have the whole polygon on their left. */
  lemma EdgeSupports(vs: seq<Clock>, k: nat, m: nat)
    requires LeftTurns(vs) && k < |vs| && m < |vs|
    ensures Orient(Prev(vs, k), vs[k], vs[m]) >= 0.0
  {
    var i := if k == 0 then |vs| - 1 else k - 1;
    OrientCyclic(vs[i], vs[k], vs[m]);
    if m == i || m == k || i == k {
    } else if k == 0 {
      assert Orient(vs[k], vs[m], vs[i]) >= 0.0;
    } else if m < i {
      assert Orient(vs[m], vs[i], vs[k]) >= 0.0;
    } else {
      assert Orient(vs[i], vs[k], vs[m]) >= 0.0;
    }
  }

  /** Where an edge of the polygon leaves a side at non-negative g, no segment between the sides does worse. */
  lemma PairCross(g: Affine, h: Affine, p: Clock, q: Clock, w: Clock, u: Clock)
    requires h.Inside(w) && !h.Inside(u)
    requires h.Inside(p) == (g.a * h.b - g.b * h.a < 0.0) && h.Inside(q) != h.Inside(p)
    requires g.Eval(Crossing(p, q, h)) >= 0.0
    requires Orient(p, q, w) >= 0.0 && Orient(p, q, u) >= 0.0
    ensures Wedge(g, h, w, u) >= 0.0
  {
    hide Affine.Eval;
    hide Crossing;
    hide Orient;
    var d := g.a * h.b - g.b * h.a;
    CrossingWedge(g, h, p, q);
    OrientImage(g, h, p, q, w);
    OrientImage(g, h, p, q, u);
    SameSign(d, Orient(p, q, w));
    SameSign(d, Orient(p, q, u));
    if d >= 0.0 {
    } else {
    }
  }

  /** If g is non-negative on the clip, every segment from inside to outside meets the boundary at non-negative g. */
  lemma AllPairsCross(vs: seq<Clock>, g: Affine, h: Affine, i: nat, j: nat)
    requires LeftTurns(vs) && i < |vs| && j < |vs|
    requires h.Inside(vs[i]) && !h.Inside(vs[j])
    requires forall v :: v in Clipped(vs, h) ==> g.Eval(v) >= 0.0
    ensures Wedge(g, h, vs[i], vs[j]) >= 0.0
  {
    hide Affine.Eval;
    hide Affine.Inside;
    hide Crossing;
    hide Orient;
    hide Wedge;
    var side := g.a * h.b - g.b * h.a < 0.0;
    var k := LeavesSide(vs, h, side, if side then i else j, if side then j else i);
    ClippedMembers(vs, h, k);
    EdgeSupports(vs, k, i);
    EdgeSupports(vs, k, j);
    PairCross(g, h, Prev(vs, k), vs[k], vs[i], vs[j]);
  }

  function Combine(g: Affine, l: real, h: Affine): Affine {
    Affine(g.a + l * h.a, g.b + l * h.b, g.c + l * h.c)
  }

  lemma CombineEval(g: Affine, l: real, h: Affine, v: Clock)
    ensures Combine(g, l, h).Eval(v) == g.Eval(v) + l * h.Eval(v)
  {
  }

  /** A multiplier that lifts every outside vertex among the first n, taken from one of them or zero. */
  lemma {:induction false} Lifting(vs: seq<Clock>, g: Affine, h: Affine, n: nat) returns (l: real)
    requires n <= |vs|
    requires forall i, j :: 0 <= i < |vs| && 0 <= j < |vs| && h.Inside(vs[i]) && !h.Inside(vs[j])
                            ==> Wedge(g, h, vs[i], vs[j]) >= 0.0
    requires forall i :: 0 <= i < |vs| && h.Inside(vs[i]) ==> g.Eval(vs[i]) >= 0.0
    ensures l >= 0.0
    ensures forall j :: 0 <= j < n && !h.Inside(vs[j]) ==> g.Eval(vs[j]) + l * h.Eval(vs[j]) >= 0.0
    ensures forall i :: 0 <= i < |vs| && h.Inside(vs[i]) ==> g.Eval(vs[i]) + l * h.Eval(vs[i]) >= 0.0
  {
    if n == 0 {
      l := 0.0;
    } else {
      l := Lifting(vs, g, h, n - 1);
      var u := vs[n - 1];
      if !h.Inside(u) && g.Eval(u) + l * h.Eval(u) < 0.0 {
        var previous := l;
        l := -g.Eval(u) / h.Eval(u);
        assert l * h.Eval(u) == -g.Eval(u);
        assert (l - previous) * h.Eval(u) > 0.0;
        assert l > previous;
        forall j | 0 <= j < n - 1 && !h.Inside(vs[j])
          ensures g.Eval(vs[j]) + l * h.Eval(vs[j]) >= 0.0
        {
          assert (l - previous) * h.Eval(vs[j]) >= 0.0;
        }
        forall i | 0 <= i < |vs| && h.Inside(vs[i])
          ensures g.Eval(vs[i]) + l * h.Eval(vs[i]) >= 0.0
        {
          assert Wedge(g, h, vs[i], vs[n - 1]) >= 0.0;
        }
      }
    }
  }

  lemma LiftedEverywhere(vs: seq<Clock>, g: Affine, h: Affine) returns (l: real)
    requires LeftTurns(vs)
    requires forall v :: v in Clipped(vs, h) ==> g.Eval(v) >= 0.0
    ensures l >= 0.0
    ensures forall v :: v in vs ==> Combine(g, l, h).Eval(v) >= 0.0
  {
    hide Affine.Eval;
    hide Wedge;
    hide LeftTurns;
    hide Clipped;
    forall i | 0 <= i < |vs| && h.Inside(vs[i])
      ensures g.Eval(vs[i]) >= 0.0
    {
      ClippedMembers(vs, h, i);
    }
    forall i, j | 0 <= i < |vs| && 0 <= j < |vs| && h.Inside(vs[i]) && !h.Inside(vs[j])
      ensures Wedge(g, h, vs[i], vs[j]) >= 0.0
    {
      AllPairsCross(vs, g, h, i, j);
    }
    l := Lifting(vs, g, h, |vs|);
    forall v | v in vs
      ensures Combine(g, l, h).Eval(v) >= 0.0
    {
      var m :| 0 <= m < |vs| && vs[m] == v;
      CombineEval(g, l, h, vs[m]);
    }
  }

  /** Clipping loses nothing: whatever the polygon covered inside the half-plane, the clip still covers. */
  lemma ClippedCovers(vs: seq<Clock>, h: Affine, p: Clock)
    requires LeftTurns(vs) && InHull(vs, p) && h.Inside(p)
    ensures InHull(Clipped(vs, h), p)
  {
    forall g: Affine | forall v :: v in Clipped(vs, h) ==> g.Eval(v) >= 0.0
      ensures g.Eval(p) >= 0.0
    {
      hide Affine.Eval;
      var l := LiftedEverywhere(vs, g, h);
      assert Combine(g, l, h).Eval(p) >= 0.0;
      CombineEval(g, l, h, p);
      SameSign(h.Eval(p), l);
    }
  }

  function Negated(g: Affine): Affine {
    Affine(-g.a, -g.b, -g.c)
  }

  lemma NegatedEval(g: Affine, v: Clock)
    ensures Negated(g).Eval(v) == -g.Eval(v)
  {
  }

  /** A half-plane that holds every vertex holds the hull. */
  lemma HullInside(vs: seq<Clock>, p: Clock, g: Affine)
    requires InHull(vs, p) && AllInside(vs, g)
    ensures g.Inside(p)
  {
    hide Affine.Eval;
    NegatedEval(g, p);
    forall v | v in vs
      ensures Negated(g).Eval(v) >= 0.0
    {
      NegatedEval(g, v);
    }
  }

  /** Clipping adds nothing: the clip covers only points of the polygon inside the half-plane. */
  lemma ClippedWithin(vs: seq<Clock>, h: Affine, p: Clock)
    requires InHull(Clipped(vs, h), p)
    ensures InHull(vs, p) && h.Inside(p)
  {
    hide Affine.Eval;
    hide Clipped;
    ClippedInside(vs, h, h);
    HullInside(Clipped(vs, h), p, h);
    forall g: Affine | forall v :: v in vs ==> g.Eval(v) >= 0.0
      ensures g.Eval(p) >= 0.0
    {
      forall v | v in vs
        ensures Negated(g).Inside(v)
      {
        NegatedEval(g, v);
      }
      ClippedInside(vs, h, Negated(g));
      HullInside(Clipped(vs, h), p, Negated(g));
      NegatedEval(g, p);
    }
  }
}
