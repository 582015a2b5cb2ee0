/**
 The barometer windows: finitely many window positions stand for a whole range of them.
 Times and widths are arbitrary reals, and a window may start anywhere.
 */
module WindowCoverage {
  import opened Wrappers
  import opened Reals
  import opened Median

  const MIN_ROWS := 20

  datatype Refusal = ReversedRange | FewRows | EdgeGap

  /** One barometer row: when and how high. */
  datatype Row = Row(t: real, value: real)

  datatype Interval = Interval(lo: real, hi: real) {
    predicate Contains(x: real) { lo <= x <= hi }
  }

  // ---------- which rows a window selects ----------

  predicate Picks(r: Row, start: real, width: real) {
    start <= r.t < start + width
  }

  function Selected(rows: seq<Row>, start: real, width: real): seq<Row> {
    if rows == [] then []
    else
      var last := rows[|rows| - 1];
      Selected(rows[..|rows| - 1], start, width) + if Picks(last, start, width) then [last] else []
  }

  /** A window selects exactly the rows from its start to before its end, each as often as it is there. */
  lemma {:induction false} SelectedExactly(rows: seq<Row>, start: real, width: real, r: Row)
    ensures multiset(Selected(rows, start, width))[r] ==
              if start <= r.t < start + width then multiset(rows)[r] else 0
  {
    if rows != [] {
      var front, last := rows[..|rows| - 1], rows[|rows| - 1];
      assert rows == front + [last];
      SelectedExactly(front, start, width, r);
    }
  }

  predicate InOrder(rows: seq<Row>) {
    forall i, j :: 0 <= i < j < |rows| ==> rows[i].t < rows[j].t
  }

  /** And in their order. */
  lemma {:induction false} SelectedInOrder(rows: seq<Row>, start: real, width: real)
    requires InOrder(rows)
    ensures InOrder(Selected(rows, start, width))
    ensures forall i :: 0 <= i < |Selected(rows, start, width)| ==> Selected(rows, start, width)[i] in rows
  {
    if rows != [] {
      var front, last := rows[..|rows| - 1], rows[|rows| - 1];
      SelectedInOrder(front, start, width);
      var kept := Selected(front, start, width);
      forall i | 0 <= i < |kept|
        ensures kept[i].t < last.t
      {
        assert kept[i] in front;
      }
    }
  }

  lemma {:induction false} SameSelection(rows: seq<Row>, x: real, y: real, width: real)
    requires forall i :: 0 <= i < |rows| ==> (Picks(rows[i], x, width) <==> Picks(rows[i], y, width))
    ensures Selected(rows, x, width) == Selected(rows, y, width)
  {
    if rows != [] {
      SameSelection(rows[..|rows| - 1], x, y, width);
      assert Picks(rows[|rows| - 1], x, width) <==> Picks(rows[|rows| - 1], y, width);
    }
  }

  // ---------- the candidates ----------

  /** The representable numbers next to a given one; what they are does not matter here. */
  datatype Neighbours = Neighbours(below: real -> real, above: real -> real)

  /** A window end inside the range, with its two neighbours as far as they are inside. */
  function Around(n: Neighbours, boundary: real, lo: real, hi: real): set<real> {
    var lower, upper := n.below(boundary), n.above(boundary);
    if lo <= boundary <= hi then
      {boundary} + (if lo <= lower <= hi then {lower} else {}) + (if lo <= upper <= hi then {upper} else {})
    else {}
  }

  function Candidates(n: Neighbours, rows: seq<Row>, lo: real, hi: real, width: real): set<real> {
    if rows == [] then {lo, hi}
    else
      var t := rows[|rows| - 1].t;
      Candidates(n, rows[..|rows| - 1], lo, hi, width) + Around(n, t, lo, hi) + Around(n, t - width, lo, hi)
  }

  lemma {:induction false} CandidatesInside(n: Neighbours, rows: seq<Row>, lo: real, hi: real, width: real)
    requires lo <= hi
    ensures lo in Candidates(n, rows, lo, hi, width) && hi in Candidates(n, rows, lo, hi, width)
    ensures forall c :: c in Candidates(n, rows, lo, hi, width) ==> lo <= c <= hi
  {
    if rows != [] {
      CandidatesInside(n, rows[..|rows| - 1], lo, hi, width);
    }
  }

  /** Every window end in the range is a candidate. */
  lemma {:induction false} BoundaryIsCandidate(n: Neighbours, rows: seq<Row>, lo: real, hi: real, width: real, i: nat)
    requires i < |rows|
    ensures lo <= rows[i].t <= hi ==> rows[i].t in Candidates(n, rows, lo, hi, width)
    ensures lo <= rows[i].t - width <= hi ==> rows[i].t - width in Candidates(n, rows, lo, hi, width)
  {
    if i < |rows| - 1 {
      assert rows[..|rows| - 1][i] == rows[i];
      BoundaryIsCandidate(n, rows[..|rows| - 1], lo, hi, width, i);
    }
  }

  /** Every real start in the range selects exactly the rows of some candidate: of the next one from it on. */
  lemma CandidatesCover(n: Neighbours, rows: seq<Row>, lo: real, hi: real, width: real, x: real) returns (c: real)
    requires lo <= x <= hi
    ensures c in Candidates(n, rows, lo, hi, width) && Selected(rows, c, width) == Selected(rows, x, width)
  {
    CandidatesInside(n, rows, lo, hi, width);
    var later := set k | k in Candidates(n, rows, lo, hi, width) && x <= k;
    assert hi in later;
    c := LeastOf(later);
    forall i | 0 <= i < |rows|
      ensures Picks(rows[i], x, width) <==> Picks(rows[i], c, width)
    {
      BoundaryIsCandidate(n, rows, lo, hi, width, i);
      assert x <= rows[i].t <= hi ==> rows[i].t in later;
      assert x <= rows[i].t - width <= hi ==> rows[i].t - width in later;
    }
    hide Picks;
    SameSelection(rows, x, c, width);
  }

  // ---------- listing the candidates ----------

  predicate Ascending(s: seq<real>) {
    forall i, j :: 0 <= i < j < |s| ==> s[i] < s[j]
  }

  lemma Inhabited(s: set<real>)
    ensures s == {} || exists k: real :: k in s
  {
    if forall k: real :: k !in s {
      assert s == {};
    }
  }

  lemma {:induction false} LeastOf(s: set<real>) returns (x: real)
    requires s != {}
    ensures x in s && forall y :: y in s ==> x <= y
    decreases |s|
  {
    Inhabited(s);
    var a :| a in s;
    x := a;
    if s != {a} {
      var rest := s - {a};
      var b := LeastOf(rest);
      assert forall y :: y in s ==> y == a || y in rest;
      x := if a < b then a else b;
    }
  }

  method SortedSet(s: set<real>) returns (r: seq<real>)
    ensures Ascending(r) && (forall x :: x in s <==> x in r)
  {
    var rest := s;
    r := [];
    while rest != {}
      invariant rest <= s && Ascending(r)
      invariant forall x :: x in s <==> x in r || x in rest
      invariant forall i, x :: 0 <= i < |r| && x in rest ==> r[i] < x
      decreases |rest|
    {
      ghost var least := LeastOf(rest);
      assert least in rest && forall y :: y in rest ==> least <= y;
      var x :| x in rest && forall y :: y in rest ==> x <= y;
      rest := rest - {x};
      r := r + [x];
    }
  }

  lemma CandidatesOneMore(n: Neighbours, rows: seq<Row>, lo: real, hi: real, width: real, i: nat)
    requires i < |rows|
    ensures Candidates(n, rows[..i + 1], lo, hi, width) ==
              Candidates(n, rows[..i], lo, hi, width) + Around(n, rows[i].t, lo, hi)
                  + Around(n, rows[i].t - width, lo, hi)
  {
    hide Around;
    assert rows[..i + 1][..i] == rows[..i];
  }

  method CandidateWindowStarts(n: Neighbours, rows: seq<Row>, lo: real, hi: real, width: real)
    returns (r: Result<seq<real>, Refusal>)
    ensures r.Ok? <==> lo <= hi
    ensures r.Err? ==> r.error == ReversedRange
    ensures r.Ok? ==> Ascending(r.value) && forall c :: c in r.value <==> c in Candidates(n, rows, lo, hi, width)
  {
    hide Around;
    hide Ascending;
    if lo > hi {
      return Err(ReversedRange);
    }
    var starts := {lo, hi};
    assert rows[..0] == [];
    assert starts == Candidates(n, rows[..0], lo, hi, width);
    hide Candidates;
    for i := 0 to |rows|
      invariant starts == Candidates(n, rows[..i], lo, hi, width)
    {
      CandidatesOneMore(n, rows, lo, hi, width, i);
      starts := starts + Around(n, rows[i].t, lo, hi) + Around(n, rows[i].t - width, lo, hi);
    }
    assert rows[..|rows|] == rows;
    var sorted := SortedSet(starts);
    return Ok(sorted);
  }

  // ---------- medians over a range of windows ----------

  /** The rows of one fixed window; too few of them, or an uncovered edge, is refused. */
  function WindowValues(rows: seq<Row>, start: real, width: real, edge: real): Result<seq<Row>, Refusal> {
    var s := Selected(rows, start, width);
    if |s| < MIN_ROWS then Err(FewRows)
    else if s[0].t - start > edge || start + width - s[|s| - 1].t > edge then Err(EdgeGap)
    else Ok(s)
  }

  /** A window is accepted exactly with 20 rows, the first near its start and the last near its end. */
  lemma AcceptedExactly(rows: seq<Row>, start: real, width: real, edge: real)
    ensures var s, w := Selected(rows, start, width), WindowValues(rows, start, width, edge);
            && (|s| < 20 ==> w == Err(FewRows))
            && (|s| >= 20 && !(s[0].t <= start + edge && start + width <= s[|s| - 1].t + edge) ==> w == Err(EdgeGap))
            && (|s| >= 20 && s[0].t <= start + edge && start + width <= s[|s| - 1].t + edge ==> w == Ok(s))
  {
    hide Selected;
  }

  function Values(s: seq<Row>): (r: seq<real>)
    ensures |r| == |s|
  {
    seq(|s|, i requires 0 <= i < |s| => s[i].value)
  }

  function Times(s: seq<Row>): (r: seq<real>)
    ensures |r| == |s|
  {
    seq(|s|, i requires 0 <= i < |s| => s[i].t)
  }

  function ValueAt(rows: seq<Row>, start: real, width: real): real
    requires Selected(rows, start, width) != []
  {
    Median.Median(Values(Selected(rows, start, width)))
  }

  function TimeAt(rows: seq<Row>, start: real, width: real): real
    requires Selected(rows, start, width) != []
  {
    Median.Median(Times(Selected(rows, start, width)))
  }

  function Least(s: seq<real>): (m: real)
    requires s != []
    ensures m in s && forall i :: 0 <= i < |s| ==> m <= s[i]
  {
    if |s| == 1 then s[0]
    else Min(Least(s[..|s| - 1]), s[|s| - 1])
  }

  function Greatest(s: seq<real>): (m: real)
    requires s != []
    ensures m in s && forall i :: 0 <= i < |s| ==> s[i] <= m
  {
    if |s| == 1 then s[0]
    else Max(Greatest(s[..|s| - 1]), s[|s| - 1])
  }

  datatype Medians = Medians(value: Interval, time: Interval)

  /** Enough rows, and both medians in the reported ranges. */
  ghost predicate Bounded(m: Medians, rows: seq<Row>, start: real, width: real) {
    && |Selected(rows, start, width)| >= MIN_ROWS
    && m.value.Contains(ValueAt(rows, start, width)) && m.time.Contains(TimeAt(rows, start, width))
  }

  /** All four ends are reached by windows of the range. */
  ghost predicate Attained(m: Medians, rows: seq<Row>, lo: real, hi: real, width: real) {
    && ValueReached(rows, lo, hi, width, m.value.lo) && ValueReached(rows, lo, hi, width, m.value.hi)
    && TimeReached(rows, lo, hi, width, m.time.lo) && TimeReached(rows, lo, hi, width, m.time.hi)
  }

  ghost predicate ValueReached(rows: seq<Row>, lo: real, hi: real, width: real, x: real) {
    exists c: real :: Admitted(rows, lo, hi, width, c) && ValueAt(rows, c, width) == x
  }

  ghost predicate TimeReached(rows: seq<Row>, lo: real, hi: real, width: real, x: real) {
    exists c: real :: Admitted(rows, lo, hi, width, c) && TimeAt(rows, c, width) == x
  }

  predicate Admitted(rows: seq<Row>, lo: real, hi: real, width: real, c: real) {
    lo <= c <= hi && Selected(rows, c, width) != []
  }

  /** The medians of the candidates, in order. */
  ghost predicate Collected(rows: seq<Row>, cs: seq<real>, width: real, edge: real, values: seq<real>,
                            times: seq<real>) {
    && |values| == |times| == |cs|
    && forall i :: 0 <= i < |cs| ==>
         WindowValues(rows, cs[i], width, edge).Ok?
         && values[i] == ValueAt(rows, cs[i], width) && times[i] == TimeAt(rows, cs[i], width)
  }

  /** Every candidate window of a proper range has enough rows and covered edges. */
  ghost predicate RangeAccepted(n: Neighbours, rows: seq<Row>, lo: real, hi: real, width: real, edge: real) {
    lo <= hi && forall c :: c in Candidates(n, rows, lo, hi, width) ==> WindowValues(rows, c, width, edge).Ok?
  }

  /** The extremes over the candidates are the exact ranges of both medians over every start in the range. */
  method MedianOverWindowRange(n: Neighbours, rows: seq<Row>, lo: real, hi: real, width: real, edge: real)
    returns (r: Result<Medians, Refusal>)
    ensures r.Ok? <==> RangeAccepted(n, rows, lo, hi, width, edge)
    ensures r.Err? && lo > hi ==> r.error == ReversedRange
    ensures r.Ok? ==> forall x: real :: lo <= x <= hi ==> Bounded(r.value, rows, x, width)
    ensures r.Ok? ==> Attained(r.value, rows, lo, hi, width)
  {
    hide Candidates;
    hide Bounded;
    hide Attained;
    var starts := CandidateWindowStarts(n, rows, lo, hi, width);
    if starts.Err? {
      return Err(ReversedRange);
    }
    var cs := starts.value;
    var values: seq<real>, times: seq<real> := [], [];
    for i := 0 to |cs|
      invariant Collected(rows, cs[..i], width, edge, values, times)
    {
      var selected := WindowValues(rows, cs[i], width, edge);
      if selected.Err? {
        assert cs[i] in Candidates(n, rows, lo, hi, width);
        return Err(selected.error);
      }
      values := values + [Median.Median(Values(selected.value))];
      times := times + [Median.Median(Times(selected.value))];
      CollectedOneMore(rows, cs, i, width, edge, values, times);
    }
    assert cs[..|cs|] == cs;
    CandidatesInside(n, rows, lo, hi, width);
    assert lo in cs;
    var m := Medians(Interval(Least(values), Greatest(values)), Interval(Least(times), Greatest(times)));
    ExtremesAreExact(n, rows, lo, hi, width, edge, cs, values, times, m);
    return Ok(m);
  }

  lemma CollectedOneMore(rows: seq<Row>, cs: seq<real>, i: nat, width: real, edge: real, values: seq<real>,
                         times: seq<real>)
    requires i < |cs| && |values| == |times| == i + 1
    requires Collected(rows, cs[..i], width, edge, values[..i], times[..i])
    requires WindowValues(rows, cs[i], width, edge).Ok?
    requires values[i] == ValueAt(rows, cs[i], width) && times[i] == TimeAt(rows, cs[i], width)
    ensures Collected(rows, cs[..i + 1], width, edge, values, times)
  {
    hide ValueAt;
    hide TimeAt;
    hide Selected;
    forall k | 0 <= k < i
      ensures WindowValues(rows, cs[k], width, edge).Ok?
      ensures values[k] == ValueAt(rows, cs[k], width) && times[k] == TimeAt(rows, cs[k], width)
    {
      assert cs[..i][k] == cs[k] && values[..i][k] == values[k] && times[..i][k] == times[k];
    }
  }

  lemma ExtremesAreExact(n: Neighbours, rows: seq<Row>, lo: real, hi: real, width: real, edge: real, cs: seq<real>,
                         values: seq<real>, times: seq<real>, m: Medians)
    requires lo <= hi && cs != [] && Collected(rows, cs, width, edge, values, times)
    requires forall c :: c in cs <==> c in Candidates(n, rows, lo, hi, width)
    requires m == Medians(Interval(Least(values), Greatest(values)), Interval(Least(times), Greatest(times)))
    ensures forall x: real :: lo <= x <= hi ==> Bounded(m, rows, x, width)
    ensures Attained(m, rows, lo, hi, width)
  {
    hide Candidates;
    hide Selected;
    hide Collected;
    hide Least;
    hide Greatest;
    hide Bounded;
    forall x: real | lo <= x <= hi
      ensures Bounded(m, rows, x, width)
    {
      var c := CandidatesCover(n, rows, lo, hi, width, x);
      var i :| 0 <= i < |cs| && cs[i] == c;
      CandidateBounded(rows, width, edge, cs, values, times, m, i, x);
    }
    ExtremesAttained(n, rows, lo, hi, width, edge, cs, values, times, m);
  }

  lemma ExtremesAttained(n: Neighbours, rows: seq<Row>, lo: real, hi: real, width: real, edge: real, cs: seq<real>,
                         values: seq<real>, times: seq<real>, m: Medians)
    requires lo <= hi && cs != [] && Collected(rows, cs, width, edge, values, times)
    requires forall c :: c in cs <==> c in Candidates(n, rows, lo, hi, width)
    requires m == Medians(Interval(Least(values), Greatest(values)), Interval(Least(times), Greatest(times)))
    ensures Attained(m, rows, lo, hi, width)
  {
    var i0 :| 0 <= i0 < |cs| && values[i0] == Least(values);
    var i1 :| 0 <= i1 < |cs| && values[i1] == Greatest(values);
    var i2 :| 0 <= i2 < |cs| && times[i2] == Least(times);
    var i3 :| 0 <= i3 < |cs| && times[i3] == Greatest(times);
    hide *;
    CandidateReached(n, rows, lo, hi, width, edge, cs, values, times, i0);
    CandidateReached(n, rows, lo, hi, width, edge, cs, values, times, i1);
    CandidateReached(n, rows, lo, hi, width, edge, cs, values, times, i2);
    CandidateReached(n, rows, lo, hi, width, edge, cs, values, times, i3);
    AllReached(m, rows, lo, hi, width);
  }

  lemma AllReached(m: Medians, rows: seq<Row>, lo: real, hi: real, width: real)
    requires ValueReached(rows, lo, hi, width, m.value.lo) && ValueReached(rows, lo, hi, width, m.value.hi)
    requires TimeReached(rows, lo, hi, width, m.time.lo) && TimeReached(rows, lo, hi, width, m.time.hi)
    ensures Attained(m, rows, lo, hi, width)
  {
    hide ValueReached;
    hide TimeReached;
  }

  lemma CandidateReached(n: Neighbours, rows: seq<Row>, lo: real, hi: real, width: real, edge: real, cs: seq<real>,
                         values: seq<real>, times: seq<real>, i: nat)
    requires lo <= hi && i < |cs| && Collected(rows, cs, width, edge, values, times)
    requires forall c :: c in cs <==> c in Candidates(n, rows, lo, hi, width)
    ensures i < |values| && ValueReached(rows, lo, hi, width, values[i])
    ensures i < |times| && TimeReached(rows, lo, hi, width, times[i])
  {
    CandidateAdmitted(n, rows, lo, hi, width, edge, cs, values, times, i);
    hide Candidates;
    hide Collected;
    hide Admitted;
    hide Selected;
    hide ValueAt;
    hide TimeAt;
  }

  lemma CandidateAdmitted(n: Neighbours, rows: seq<Row>, lo: real, hi: real, width: real, edge: real, cs: seq<real>,
                          values: seq<real>, times: seq<real>, i: nat)
    requires lo <= hi && i < |cs| && Collected(rows, cs, width, edge, values, times)
    requires forall c :: c in cs <==> c in Candidates(n, rows, lo, hi, width)
    ensures i < |values| && i < |times| && Admitted(rows, lo, hi, width, cs[i])
    ensures ValueAt(rows, cs[i], width) == values[i] && TimeAt(rows, cs[i], width) == times[i]
  {
    CandidatesInside(n, rows, lo, hi, width);
    assert cs[i] in cs;
    hide Candidates;
    hide Selected;
    hide ValueAt;
    hide TimeAt;
  }

  lemma SameMedians(rows: seq<Row>, x: real, y: real, width: real)
    requires Selected(rows, x, width) == Selected(rows, y, width) != []
    ensures ValueAt(rows, x, width) == ValueAt(rows, y, width) && TimeAt(rows, x, width) == TimeAt(rows, y, width)
  {
    hide Selected;
  }

  lemma CandidateBounded(rows: seq<Row>, width: real, edge: real, cs: seq<real>, values: seq<real>, times: seq<real>,
                         m: Medians, i: nat, x: real)
    requires i < |cs| && Collected(rows, cs, width, edge, values, times)
    requires Selected(rows, cs[i], width) == Selected(rows, x, width)
    requires m == Medians(Interval(Least(values), Greatest(values)), Interval(Least(times), Greatest(times)))
    ensures Bounded(m, rows, x, width)
  {
    hide Selected;
    hide ValueAt;
    hide TimeAt;
    assert WindowValues(rows, cs[i], width, edge).Ok?;
    SameMedians(rows, cs[i], x, width);
    hide WindowValues;
    hide Collected;
  }

  // ---------- the barometer prediction of one event ----------

    /** The drift-corrected height difference between two windows. */
  function Contrast(rows: seq<Row>, before: real, after: real, width: real, slope: real): real
    requires Selected(rows, before, width) != [] && Selected(rows, after, width) != []
  {
    ValueAt(rows, after, width) - ValueAt(rows, before, width)
      - Product(slope, TimeAt(rows, after, width) - TimeAt(rows, before, width))
  }

  /** The ranges of both medians over a range of starts: nothing is outside, and all four ends are reached. */
  ghost predicate Exact(m: Medians, rows: seq<Row>, lo: real, hi: real, width: real) {
    Attained(m, rows, lo, hi, width) && forall x: real :: lo <= x <= hi ==> Bounded(m, rows, x, width)
  }

  /** The least and the largest contrast of two such ranges, when every extreme may meet every other. */
  function Combined(b: Medians, a: Medians, slope: real, error: real): Interval {
    var soon, late := Product(slope, a.time.lo - b.time.hi), Product(slope, a.time.hi - b.time.lo);
    Interval(a.value.lo - b.value.hi - Max(soon, late) - error, a.value.hi - b.value.lo - Min(soon, late) + error)
  }

  predicate Predicts(r: Interval, rows: seq<Row>, before: real, after: real, width: real, slope: real, error: real) {
    && Selected(rows, before, width) != [] && Selected(rows, after, width) != []
    && r.lo + error <= Contrast(rows, before, after, width, slope) <= r.hi - error
  }

  method BarometerPrediction(n: Neighbours, rows: seq<Row>, start: Interval, end: Interval, width: real, edge: real,
                             delay: real, te: real, slope: real, error: real)
    returns (r: Result<Interval, Refusal>)
    ensures r.Ok? <==> RangeAccepted(n, rows, start.lo - width - te, start.hi - width + te, width, edge)
                       && RangeAccepted(n, rows, end.lo + delay - te, end.hi + delay + te, width, edge)
    ensures r.Ok? ==>
              forall x: real, y: real ::
                (start.lo - width - te) <= x <= (start.hi - width + te)
                && (end.lo + delay - te) <= y <= (end.hi + delay + te) ==>
                Predicts(r.value, rows, x, y, width, slope, error)
    ensures r.Ok? ==>
              exists b, a ::
                && Exact(b, rows, start.lo - width - te, start.hi - width + te, width)
                && Exact(a, rows, end.lo + delay - te, end.hi + delay + te, width)
                && r.value == Combined(b, a, slope, error)
  {
    hide Bounded;
    hide Attained;
    hide Product;
    hide Predicts;
    hide RangeAccepted;
    var before := MedianOverWindowRange(n, rows, start.lo - width - te, start.hi - width + te, width, edge);
    if before.Err? {
      return Err(before.error);
    }
    var after := MedianOverWindowRange(n, rows, end.lo + delay - te, end.hi + delay + te, width, edge);
    if after.Err? {
      return Err(after.error);
    }
    var b, a := before.value, after.value;
    var sep := Interval(a.time.lo - b.time.hi, a.time.hi - b.time.lo);
    var d0, d1 := Product(slope, sep.lo), Product(slope, sep.hi);
    var drift := Interval(Min(d0, d1), Max(d0, d1));
    var predicted := Interval(a.value.lo - b.value.hi - drift.hi - error, a.value.hi - b.value.lo - drift.lo + error);
    forall x: real, y: real | (start.lo - width - te) <= x <= (start.hi - width + te)
                              && (end.lo + delay - te) <= y <= (end.hi + delay + te)
      ensures Predicts(predicted, rows, x, y, width, slope, error)
    {
      PredictionBounds(rows, x, y, width, slope, error, b, a);
    }
    assert Exact(b, rows, start.lo - width - te, start.hi - width + te, width);
    assert Exact(a, rows, end.lo + delay - te, end.hi + delay + te, width);
    assert predicted == Combined(b, a, slope, error);
    return Ok(predicted);
  }

  lemma PredictionBounds(rows: seq<Row>, x: real, y: real, width: real, slope: real, error: real, b: Medians,
                         a: Medians)
    requires Bounded(b, rows, x, width) && Bounded(a, rows, y, width)
    ensures var d0, d1 := Product(slope, a.time.lo - b.time.hi), Product(slope, a.time.hi - b.time.lo);
            Predicts(Interval(a.value.lo - b.value.hi - Max(d0, d1) - error, a.value.hi - b.value.lo - Min(d0, d1)
                + error),
                     rows, x, y, width, slope, error)
  {
    hide Selected;
    hide ValueAt;
    hide TimeAt;
    DriftBetween(slope, TimeAt(rows, y, width) - TimeAt(rows, x, width), a.time.lo - b.time.hi, a.time.hi - b.time.lo);
    hide Product;
  }

  lemma DriftBetween(slope: real, t: real, lo: real, hi: real)
    requires lo <= t <= hi
    ensures Min(Product(slope, lo), Product(slope, hi)) <= Product(slope, t) <= Max(Product(slope, lo),
            Product(slope, hi))
  {
    if slope >= 0.0 {
      ProductMonotone(lo, t, slope);
      ProductMonotone(t, hi, slope);
    } else {
      MulAntitone(lo, t, slope);
      MulAntitone(t, hi, slope);
    }
  }
}
