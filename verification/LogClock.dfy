/**
 The 24-bit millisecond clock of the device log, unwrapped in two ways: by summing gaps, and
 relative to an origin. Both are compared with the true time that the device truncated.
 */
module LogClock {
  import opened Options
  import opened Wrappers

  const MODULUS := 0x100_0000
  const HALF := 0x80_0000
  const BARO_MAX_GAP := 40

  datatype Refusal = EmptyStream | BadStamp | BadGap | GapTooLong | NotAligned

  /** One row: the device stamp and the host time it arrived at. */
  datatype Row = Row(stamp: int, host: real)

  predicate Plausible(rows: seq<Row>) {
    && (forall i :: 0 <= i < |rows| ==> 0 <= rows[i].stamp < MODULUS)
    && (forall i :: 0 < i < |rows| ==> rows[i - 1].host < rows[i].host)
  }

  function Gap(rows: seq<Row>, i: int): (g: int)
    requires 0 < i < |rows|
    ensures 0 <= g < MODULUS
  {
    (rows[i].stamp - rows[i - 1].stamp) % MODULUS
  }

  predicate GapsWithin(rows: seq<Row>, limit: int) {
    forall i :: 0 < i < |rows| ==> 0 < Gap(rows, i) <= limit
  }

  // ---------- unwrapping by gaps ----------

  function Elapsed(rows: seq<Row>, i: nat): int
    requires i < |rows|
  {
    if i == 0 then 0 else Elapsed(rows, i - 1) + Gap(rows, i)
  }

  method ReadBarometer(rows: seq<Row>) returns (r: Result<seq<int>, Refusal>)
    ensures r.Ok? <==> rows != [] && Plausible(rows) && GapsWithin(rows, BARO_MAX_GAP)
    ensures r.Ok? ==> |r.value| == |rows| && forall i :: 0 <= i < |rows| ==> r.value[i] == Elapsed(rows, i)
  {
    hide Plausible;
    hide GapsWithin;
    EmptyChecks(rows, BARO_MAX_GAP);
    var samples, elapsed := [], 0;
    for i := 0 to |rows|
      invariant Plausible(rows[..i]) && GapsWithin(rows[..i], BARO_MAX_GAP)
      invariant |samples| == i && forall j :: 0 <= j < i ==> samples[j] == Elapsed(rows, j)
      invariant elapsed == if i == 0 then 0 else Elapsed(rows, i - 1)
    {
      PrefixChecks(rows, i, BARO_MAX_GAP);
      if !(0 <= rows[i].stamp < MODULUS) || (i > 0 && rows[i].host <= rows[i - 1].host) {
        return Err(BadStamp);
      }
      if i > 0 {
        var gap := (rows[i].stamp - rows[i - 1].stamp) % MODULUS;
        if gap == 0 || gap >= HALF || gap > BARO_MAX_GAP {
          return Err(BadGap);
        }
        elapsed := elapsed + gap;
      }
      samples := samples + [elapsed];
    }
    assert rows[..|rows|] == rows;
    return if rows == [] then Err(EmptyStream) else Ok(samples);
  }

  /** A whole stream passes the checks exactly when its prefix does and the next row does. */
  lemma PrefixChecks(rows: seq<Row>, i: nat, limit: int)
    requires i < |rows|
    ensures Plausible(rows[..i + 1]) <==>
              Plausible(rows[..i]) && 0 <= rows[i].stamp < MODULUS && (i > 0 ==> rows[i - 1].host < rows[i].host)
    ensures GapsWithin(rows[..i + 1], limit) <==> GapsWithin(rows[..i], limit) && (i > 0 ==> 0 < Gap(rows, i) <= limit)
    ensures Plausible(rows) ==> Plausible(rows[..i + 1])
    ensures GapsWithin(rows, limit) ==> GapsWithin(rows[..i + 1], limit)
  {
    PrefixGaps(rows, i, limit);
    PrefixGaps(rows, i + 1, limit);
    hide GapsWithin;
  }

  lemma PrefixGaps(rows: seq<Row>, n: nat, limit: int)
    requires n <= |rows|
    ensures GapsWithin(rows[..n], limit) <==> forall j :: 0 < j < n ==> 0 < Gap(rows, j) <= limit
    ensures GapsWithin(rows, limit) ==> GapsWithin(rows[..n], limit)
  {
    forall j | 0 < j < n
      ensures Gap(rows[..n], j) == Gap(rows, j)
    {
    }
    hide Gap;
    if GapsWithin(rows[..n], limit) {
      forall j | 0 < j < n
        ensures 0 < Gap(rows, j) <= limit
      {
        assert 0 < Gap(rows[..n], j) <= limit;
      }
    }
  }

  lemma EmptyChecks(rows: seq<Row>, limit: int)
    ensures Plausible(rows[..0]) && GapsWithin(rows[..0], limit)
  {
  }

  // ---------- unwrapping from an origin ----------

  /** The representative of a difference of stamps nearest to zero. */
  function Centered(d: int): (c: int)
    ensures -HALF <= c < HALF
  {
    var m := d % MODULUS;
    if m < HALF then m else m - MODULUS
  }

  predicate Aligned(rows: seq<Row>, origin: int) {
    && (forall i :: 0 <= i < |rows| ==> (rows[i].stamp - origin) % MODULUS != HALF)
    && (forall i :: 0 < i < |rows| ==> Centered(rows[i - 1].stamp - origin) < Centered(rows[i].stamp - origin))
  }

  function OriginOf(rows: seq<Row>, origin: Option<int>): int
    requires rows != []
  {
    if origin.Some? then origin.value else rows[0].stamp
  }

  lemma PrefixAligned(rows: seq<Row>, i: nat, origin: int)
    requires i < |rows|
    ensures Aligned(rows[..i + 1], origin) <==>
              && Aligned(rows[..i], origin) && (rows[i].stamp - origin) % MODULUS != HALF
              && (i > 0 ==> Centered(rows[i - 1].stamp - origin) < Centered(rows[i].stamp - origin))
    ensures Aligned(rows, origin) ==> Aligned(rows[..i + 1], origin)
  {
    hide Centered;
    assert forall k :: 0 <= k < i ==> rows[..i][k] == rows[k];
    assert forall k :: 0 <= k < i + 1 ==> rows[..i + 1][k] == rows[k];
  }

  /** The checks of one row after a checked prefix, and its elapsed time. */
  method UnwrapRow(rows: seq<Row>, i: nat, from: int, maxGap: int, previous: int) returns (r: Result<int, Refusal>)
    requires i < |rows| && 0 <= maxGap < HALF && Plausible(rows[..i]) && GapsWithin(rows[..i], maxGap)
             && Aligned(rows[..i], from)
    requires i > 0 ==> previous == Centered(rows[i - 1].stamp - from)
    ensures r.Ok? <==> Plausible(rows[..i + 1]) && GapsWithin(rows[..i + 1], maxGap) && Aligned(rows[..i + 1], from)
    ensures r.Ok? ==> r.value == Centered(rows[i].stamp - from)
  {
    hide Plausible;
    hide GapsWithin;
    hide Aligned;
    PrefixChecks(rows, i, maxGap);
    PrefixAligned(rows, i, from);
    if !(0 <= rows[i].stamp < MODULUS) || (i > 0 && rows[i].host <= rows[i - 1].host) {
      return Err(BadStamp);
    }
    if i > 0 {
      var gap := (rows[i].stamp - rows[i - 1].stamp) % MODULUS;
      if gap == 0 || gap >= HALF {
        return Err(BadGap);
      }
      if gap > maxGap {
        return Err(GapTooLong);
      }
    }
    var modular := (rows[i].stamp - from) % MODULUS;
    if modular == HALF {
      return Err(NotAligned);
    }
    var elapsed := if modular < HALF then modular else modular - MODULUS;
    if i > 0 && elapsed <= previous {
      return Err(NotAligned);
    }
    return Ok(elapsed);
  }

  method UnwrapRows(rows: seq<Row>, origin: Option<int>, maxGap: int) returns (r: Result<(int, seq<int>), Refusal>)
    requires 0 <= maxGap < HALF
    ensures r.Ok? <==>
              rows != [] && Plausible(rows) && GapsWithin(rows, maxGap) && Aligned(rows, OriginOf(rows, origin))
    ensures r.Ok? ==> r.value.0 == OriginOf(rows, origin) && |r.value.1| == |rows|
    ensures r.Ok? ==> forall i :: 0 <= i < |rows| ==> r.value.1[i] == Centered(rows[i].stamp - OriginOf(rows, origin))
  {
    if rows == [] {
      return Err(EmptyStream);
    }
    var from := if origin.Some? then origin.value else rows[0].stamp;
    assert from == OriginOf(rows, origin);
    hide Plausible;
    hide GapsWithin;
    hide Aligned;
    hide Centered;
    hide OriginOf;
    EmptyChecks(rows, maxGap);
    var parsed: seq<int> := [];
    for i := 0 to |rows|
      invariant Plausible(rows[..i]) && GapsWithin(rows[..i], maxGap) && Aligned(rows[..i], from)
      invariant |parsed| == i && forall j :: 0 <= j < i ==> parsed[j] == Centered(rows[j].stamp - from)
    {
      var elapsed := UnwrapRow(rows, i, from, maxGap, if i > 0 then parsed[i - 1] else 0);
      if elapsed.Err? {
        PrefixChecks(rows, i, maxGap);
        PrefixAligned(rows, i, from);
        return Err(elapsed.error);
      }
      parsed := parsed + [elapsed.value];
    }
    assert rows[..|rows|] == rows;
    return Ok((from, parsed));
  }

  // ---------- against true time ----------

  /** True device times of which only the low 24 bits were logged. */
  predicate Truncates(rows: seq<Row>, ts: seq<int>) {
    |ts| == |rows| && forall i :: 0 <= i < |rows| ==> rows[i].stamp == ts[i] % MODULUS
  }

  predicate StepsWithin(ts: seq<int>, limit: int) {
    forall i :: 0 < i < |ts| ==> 0 < ts[i] - ts[i - 1] <= limit
  }

  lemma ModDifference(a: int, b: int)
    ensures (a % MODULUS - b % MODULUS) % MODULUS == (a - b) % MODULUS
  {
  }

  lemma SmallMod(d: int)
    requires 0 <= d < MODULUS
    ensures d % MODULUS == d
  {
  }

  /** Short true steps are exactly what the gaps show. */
  lemma GapIsStep(rows: seq<Row>, ts: seq<int>, i: nat, limit: int)
    requires Truncates(rows, ts) && StepsWithin(ts, limit) && 0 < i < |rows| && 0 <= limit < MODULUS
    ensures Gap(rows, i) == ts[i] - ts[i - 1]
  {
  }

  lemma {:induction false} ElapsedIsTrue(rows: seq<Row>, ts: seq<int>, i: nat)
    requires Truncates(rows, ts) && StepsWithin(ts, BARO_MAX_GAP) && i < |rows|
    ensures Elapsed(rows, i) == ts[i] - ts[0]
  {
    if i > 0 {
      ElapsedIsTrue(rows, ts, i - 1);
      GapIsStep(rows, ts, i, BARO_MAX_GAP);
    }
  }

  /** Summing gaps recovers true elapsed time across any number of wraparounds, and no such stream is refused. */
  lemma BarometerClockIsTrue(rows: seq<Row>, ts: seq<int>)
    requires Truncates(rows, ts) && StepsWithin(ts, BARO_MAX_GAP)
    requires forall i :: 0 < i < |rows| ==> rows[i - 1].host < rows[i].host
    ensures Plausible(rows) && GapsWithin(rows, BARO_MAX_GAP)
    ensures forall i :: 0 <= i < |rows| ==> Elapsed(rows, i) == ts[i] - ts[0]
  {
    forall i | 0 < i < |rows|
      ensures 0 < Gap(rows, i) <= BARO_MAX_GAP
    {
      GapIsStep(rows, ts, i, BARO_MAX_GAP);
    }
    forall i | 0 <= i < |rows|
      ensures Elapsed(rows, i) == ts[i] - ts[0]
    {
      ElapsedIsTrue(rows, ts, i);
    }
  }

  lemma CenteredIsTrue(t: int, origin: int)
    requires -HALF <= t - origin < HALF
    ensures Centered(t % MODULUS - origin % MODULUS) == t - origin
  {
  }

  predicate WithinHalf(ts: seq<int>, origin: int) {
    forall i :: 0 <= i < |ts| ==> ts[i] - origin < HALF
  }

  /**
   Unwrapping from an origin that was logged as its low 24 bits: a stream of short true steps that starts less than
   half a period before or after the origin is accepted exactly when it ends before half a period, and then the
   result is the true time since the origin.
   */
  lemma OriginClockIsTrue(rows: seq<Row>, ts: seq<int>, origin: int, maxGap: int)
    requires rows != [] && Truncates(rows, ts) && 0 < maxGap < HALF && StepsWithin(ts, maxGap)
    requires -HALF < ts[0] - origin < HALF
    ensures GapsWithin(rows, maxGap)
    ensures Aligned(rows, origin % MODULUS) <==> WithinHalf(ts, origin)
    ensures WithinHalf(ts, origin) ==>
              forall i :: 0 <= i < |rows| ==> Centered(rows[i].stamp - origin % MODULUS) == ts[i] - origin
  {
    forall i | 0 < i < |rows|
      ensures 0 < Gap(rows, i) <= maxGap
    {
      GapIsStep(rows, ts, i, maxGap);
    }
    if WithinHalf(ts, origin) {
      WithinIsAligned(rows, ts, origin, maxGap);
    } else {
      var k := FirstBeyond(ts, origin);
      BeyondIsRefused(rows, ts, origin, maxGap, k);
    }
  }

  lemma {:induction false} StepsRise(ts: seq<int>, limit: int, i: nat)
    requires StepsWithin(ts, limit) && i < |ts|
    ensures ts[0] <= ts[i]
  {
    if i > 0 {
      StepsRise(ts, limit, i - 1);
    }
  }

  lemma WithinIsAligned(rows: seq<Row>, ts: seq<int>, origin: int, maxGap: int)
    requires rows != [] && Truncates(rows, ts) && StepsWithin(ts, maxGap) && WithinHalf(ts, origin)
             && -HALF < ts[0] - origin
    ensures Aligned(rows, origin % MODULUS)
    ensures forall i :: 0 <= i < |rows| ==> Centered(rows[i].stamp - origin % MODULUS) == ts[i] - origin
  {
    forall i | 0 <= i < |rows|
      ensures Centered(rows[i].stamp - origin % MODULUS) == ts[i] - origin > -HALF
    {
      StepsRise(ts, maxGap, i);
      CenteredIsTrue(ts[i], origin);
    }
    forall i | 0 <= i < |rows|
      ensures (rows[i].stamp - origin % MODULUS) % MODULUS != HALF
    {
    }
    hide Centered;
  }

  lemma {:induction false} FirstBeyond(ts: seq<int>, origin: int) returns (k: nat)
    requires !WithinHalf(ts, origin)
    ensures k < |ts| && ts[k] - origin >= HALF && forall i :: 0 <= i < k ==> ts[i] - origin < HALF
  {
    k := 0;
    while ts[k] - origin < HALF
      invariant k < |ts| && forall i :: 0 <= i < k ==> ts[i] - origin < HALF
      decreases |ts| - k
    {
      k := k + 1;
    }
  }

  /** The first row half a period or more after the origin lands on the excluded edge or wraps below its predecessor. */
  lemma BeyondIsRefused(rows: seq<Row>, ts: seq<int>, origin: int, maxGap: int, k: nat)
    requires Truncates(rows, ts) && 0 < maxGap < HALF && StepsWithin(ts, maxGap) && 0 < k < |rows|
    requires -HALF < ts[0] - origin && ts[k - 1] - origin < HALF <= ts[k] - origin
    ensures !Aligned(rows, origin % MODULUS)
  {
    StepsRise(ts, maxGap, k - 1);
    CenteredIsTrue(ts[k - 1], origin);
    ModDifference(ts[k], origin);
    SmallMod(ts[k] - origin);
    if ts[k] - origin > HALF {
      assert Centered(rows[k].stamp - origin % MODULUS) == ts[k] - origin - MODULUS;
      assert Centered(rows[k - 1].stamp - origin % MODULUS) == ts[k - 1] - origin;
    }
  }

  /** On every stream that both readers accept they report the same times. */
  lemma {:induction false} ClocksAgree(rows: seq<Row>, i: nat)
    requires i < |rows| && Plausible(rows) && GapsWithin(rows, BARO_MAX_GAP) && Aligned(rows, rows[0].stamp)
    ensures Elapsed(rows, i) == Centered(rows[i].stamp - rows[0].stamp)
  {
    if i > 0 {
      ClocksAgree(rows, i - 1);
      NextCentered(rows[i].stamp, rows[i - 1].stamp, rows[0].stamp, Gap(rows, i));
    }
  }

  lemma NextCentered(s: int, before: int, origin: int, gap: int)
    requires gap == (s - before) % MODULUS && 0 < gap <= BARO_MAX_GAP
    requires (s - origin) % MODULUS != HALF && Centered(before - origin) < Centered(s - origin)
    ensures Centered(s - origin) == Centered(before - origin) + gap
  {
  }
}
