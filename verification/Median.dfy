/** The median of a list of numbers, and how it follows its arguments. */
module Median {
  import opened Reals

  predicate Ordered(s: seq<real>) {
    forall i, j :: 0 <= i < j < |s| ==> s[i] <= s[j]
  }

  /** Every element of a is at most the element of b at the same position. */
  predicate Pointwise(a: seq<real>, b: seq<real>) {
    |a| == |b| && forall i :: 0 <= i < |a| ==> a[i] <= b[i]
  }

  function Insert(x: real, s: seq<real>): (r: seq<real>)
    ensures |r| == |s| + 1 && multiset(r) == multiset(s) + multiset{x}
    ensures Ordered(s) ==> Ordered(r)
  {
    if s == [] then [x]
    else if x <= s[0] then [x] + s
    else
      var rest := Insert(x, s[1..]);
      InsertKeeps(x, s, rest);
      [s[0]] + rest
  }

  lemma InsertKeeps(x: real, s: seq<real>, rest: seq<real>)
    requires s != [] && x > s[0] && multiset(rest) == multiset(s[1..]) + multiset{x}
    ensures multiset([s[0]] + rest) == multiset(s) + multiset{x}
    ensures Ordered(s) && Ordered(rest) ==> Ordered([s[0]] + rest)
  {
    assert s == [s[0]] + s[1..];
    if Ordered(s) {
      forall i | 0 <= i < |rest|
        ensures s[0] <= rest[i]
      {
        assert rest[i] in multiset(rest);
        assert rest[i] in multiset(s[1..]) || rest[i] == x;
      }
    }
  }

  /** The list in ascending order. */
  function Sorted(s: seq<real>): (r: seq<real>)
    ensures |r| == |s| && Ordered(r) && multiset(r) == multiset(s)
  {
    if s == [] then []
    else
      assert s == [s[0]] + s[1..];
      Insert(s[0], Sorted(s[1..]))
  }

  /** The middle element, or the mean of the two middle ones. */
  function Median(s: seq<real>): real
    requires s != []
  {
    var r := Sorted(s);
    if |s| % 2 == 1 then r[|s| / 2] else (r[|s| / 2 - 1] + r[|s| / 2]) / 2.0
  }

  // ---------- monotonicity ----------

  lemma InsertFront(x: real, s: seq<real>)
    requires Ordered([x] + s)
    ensures Insert(x, s) == [x] + s
  {
    if s != [] {
      assert ([x] + s)[0] <= ([x] + s)[1];
    }
  }

  lemma OrderedTail(s: seq<real>)
    requires s != [] && Ordered(s)
    ensures Ordered(s[1..]) && s == [s[0]] + s[1..]
  {
  }

  lemma PointwiseCons(x: real, s: seq<real>, y: real, t: seq<real>)
    requires x <= y && Pointwise(s, t)
    ensures Pointwise([x] + s, [y] + t)
  {
  }

  lemma PointwiseEmpty(x: real, y: real, t: seq<real>)
    requires x <= y && Pointwise([], t)
    ensures t == [] && Pointwise([x], [y])
  {
  }

  lemma PointwiseTail(s: seq<real>, t: seq<real>)
    requires s != [] && Pointwise(s, t)
    ensures t != [] && s[0] <= t[0] && Pointwise(s[1..], t[1..])
  {
  }

  lemma {:induction false} InsertMonotone(x: real, s: seq<real>, y: real, t: seq<real>)
    requires x <= y && Ordered(s) && Ordered(t) && Pointwise(s, t)
    ensures Pointwise(Insert(x, s), Insert(y, t))
    decreases |s|
  {
    hide Pointwise;
    if s == [] {
      PointwiseEmpty(x, y, t);
    } else {
      PointwiseTail(s, t);
      OrderedTail(s);
      OrderedTail(t);
      var u, v := s[1..], t[1..];
      if x <= s[0] && y <= t[0] {
        PointwiseCons(x, s, y, t);
      } else if x <= s[0] {
        InsertFront(s[0], u);
        InsertMonotone(s[0], u, y, v);
        PointwiseCons(x, s, t[0], Insert(y, v));
      } else if y <= t[0] {
        InsertFront(t[0], v);
        InsertMonotone(x, u, t[0], v);
        PointwiseCons(s[0], Insert(x, u), y, t);
      } else {
        InsertMonotone(x, u, y, v);
        PointwiseCons(s[0], Insert(x, u), t[0], Insert(y, v));
      }
    }
  }

  lemma {:induction false} SortedMonotone(a: seq<real>, b: seq<real>)
    requires Pointwise(a, b)
    ensures Pointwise(Sorted(a), Sorted(b))
  {
    if a != [] {
      PointwiseTail(a, b);
      SortedMonotone(a[1..], b[1..]);
      InsertMonotone(a[0], Sorted(a[1..]), b[0], Sorted(b[1..]));
    }
  }

  /** Raising any elements never lowers the median. */
  lemma MedianMonotone(a: seq<real>, b: seq<real>)
    requires a != [] && Pointwise(a, b)
    ensures Median(a) <= Median(b)
  {
    hide Sorted;
    SortedMonotone(a, b);
  }

  // ---------- what the median is ----------

  /** Whether x comes before t, or, unless strictly, is t. */
  predicate Precedes(x: real, t: real, strictly: bool) {
    x < t || (x == t && !strictly)
  }

  /** How many elements come before t. */
  function Before(s: seq<real>, t: real, strictly: bool): (n: nat)
    ensures n <= |s|
  {
    if s == [] then 0 else (if Precedes(s[0], t, strictly) then 1 else 0) + Before(s[1..], t, strictly)
  }

  /** In ascending order a would stand at position k. */
  ghost predicate HasRank(s: seq<real>, k: int, a: real) {
    a in s && Before(s, a, true) <= k < Before(s, a, false)
  }

  /** The elements of the two middle ranks, which are the same rank for an odd number of elements. */
  ghost predicate AreMiddle(s: seq<real>, a: real, b: real) {
    HasRank(s, (|s| - 1) / 2, a) && HasRank(s, |s| / 2, b)
  }

  lemma {:induction false} InsertCounts(x: real, s: seq<real>, t: real, strictly: bool)
    ensures Before(Insert(x, s), t, strictly) == Before(s, t, strictly) + (if Precedes(x, t, strictly) then 1 else 0)
  {
    if s != [] && x > s[0] {
      var rest := Insert(x, s[1..]);
      assert Insert(x, s)[1..] == rest;
      InsertCounts(x, s[1..], t, strictly);
    }
  }

  lemma {:induction false} SortedCounts(s: seq<real>, t: real, strictly: bool)
    ensures Before(Sorted(s), t, strictly) == Before(s, t, strictly)
  {
    if s != [] {
      SortedCounts(s[1..], t, strictly);
      InsertCounts(s[0], Sorted(s[1..]), t, strictly);
    }
  }

  /** In an ordered list the elements up to a position precede it and those from it on do not. */
  lemma {:induction false} OrderedCounts(s: seq<real>, k: nat, t: real)
    requires Ordered(s) && k < |s| && s[k] == t
    ensures Before(s, t, true) <= k < Before(s, t, false)
  {
    assert s[0] <= t;
    if k == 0 {
      NoneBefore(s, t);
    } else {
      OrderedCounts(s[1..], k - 1, t);
    }
  }

  lemma {:induction false} NoneBefore(s: seq<real>, t: real)
    requires forall i :: 0 <= i < |s| ==> t <= s[i]
    ensures Before(s, t, true) == 0
  {
    if s != [] {
      NoneBefore(s[1..], t);
    }
  }

  /** The median is the mean of the elements of the two middle ranks. */
  lemma MedianIsMiddle(s: seq<real>)
    requires s != []
    ensures exists a, b :: AreMiddle(s, a, b) && Median(s) == (a + b) / 2.0
  {
    hide *;
    MeanOfMiddle(s);
    RankOf(s, (|s| - 1) / 2);
    RankOf(s, |s| / 2);
    RanksAreMiddle(s, Sorted(s)[(|s| - 1) / 2], Sorted(s)[|s| / 2]);
  }

  lemma MeanOfMiddle(s: seq<real>)
    requires s != []
    ensures Median(s) == (Sorted(s)[(|s| - 1) / 2] + Sorted(s)[|s| / 2]) / 2.0
  {
    hide Sorted;
    Halves(|s|);
    var k, l, r := (|s| - 1) / 2, |s| / 2, Sorted(s);
    assert Median(s) == if k == l then r[l] else (r[k] + r[l]) / 2.0;
  }

  lemma Halves(n: nat)
    requires n > 0
    ensures 0 <= (n - 1) / 2 <= n / 2 < n
    ensures (n - 1) / 2 == if n % 2 == 1 then n / 2 else n / 2 - 1
  {
  }

  lemma RanksAreMiddle(s: seq<real>, a: real, b: real)
    requires HasRank(s, (|s| - 1) / 2, a) && HasRank(s, |s| / 2, b)
    ensures AreMiddle(s, a, b)
  {
    hide HasRank;
  }

  lemma RankOf(s: seq<real>, k: nat)
    requires k < |s|
    ensures HasRank(s, k, Sorted(s)[k])
  {
    var r := Sorted(s);
    assert r[k] in multiset(r);
    OrderedCounts(r, k, r[k]);
    SortedCounts(s, r[k], true);
    SortedCounts(s, r[k], false);
  }

  /** Only one value has a given rank, so that the two ranks fix the median. */
  lemma RankIsUnique(s: seq<real>, k: int, a: real, b: real)
    requires HasRank(s, k, a) && HasRank(s, k, b)
    ensures a == b
  {
    if a < b {
      CountsGrow(s, a, b);
    } else if b < a {
      CountsGrow(s, b, a);
    }
  }

  lemma {:induction false} CountsGrow(s: seq<real>, a: real, b: real)
    requires a < b
    ensures Before(s, a, false) <= Before(s, b, true)
  {
    if s != [] {
      CountsGrow(s[1..], a, b);
    }
  }

  /** Whatever has the two middle ranks gives the median. */
  lemma MedianFromRanks(s: seq<real>, a: real, b: real)
    requires s != [] && HasRank(s, (|s| - 1) / 2, a) && HasRank(s, |s| / 2, b)
    ensures Median(s) == (a + b) / 2.0
  {
    hide *;
    MeanOfMiddle(s);
    RankOf(s, (|s| - 1) / 2);
    RankOf(s, |s| / 2);
    RankIsUnique(s, (|s| - 1) / 2, a, Sorted(s)[(|s| - 1) / 2]);
    RankIsUnique(s, |s| / 2, b, Sorted(s)[|s| / 2]);
  }
}
