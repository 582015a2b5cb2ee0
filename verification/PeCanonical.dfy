/**
 The controller executable made reproducible: its header timestamp is blanked and its header
 checksum recomputed with end-around carry, in place.
 */
module PeCanonical {
  import opened Wrappers
  import opened Integers

  datatype Refusal = NotAnExecutable | BadHeader | UnknownMagic

  const OFFSET_FIELD := 0x3c
  const WORD := 0x1_0000
  const LONG := 0x1_0000_0000

  // ---------- header fields ----------

  function U16(d: seq<Byte>, i: nat): (v: int)
    requires i + 2 <= |d|
    ensures 0 <= v < WORD
  {
    d[i] as int + 256 * d[i + 1] as int
  }

  function U32(d: seq<Byte>, i: nat): (v: int)
    requires i + 4 <= |d|
    ensures 0 <= v < LONG
  {
    d[i] as int + 256 * (d[i + 1] as int + 256 * (d[i + 2] as int + 256 * d[i + 3] as int))
  }

  function Bytes32(v: int): (bs: seq<Byte>)
    requires 0 <= v < LONG
    ensures |bs| == 4
  {
    [v % 256, v / 256 % 256, v / 256 / 256 % 256, v / 256 / 256 / 256 % 256]
  }

  predicate Executable(d: seq<Byte>) {
    |d| >= 256 && d[0] == 0x4d && d[1] == 0x5a
  }

  predicate HasHeader(d: seq<Byte>, pe: int) {
    0 <= pe && pe + 104 <= |d| && d[pe..pe + 4] == [0x50, 0x45, 0, 0]
  }

  predicate KnownMagic(d: seq<Byte>, pe: int)
    requires HasHeader(d, pe)
  {
    U16(d, pe + 24) == 0x10b || U16(d, pe + 24) == 0x20b
  }

  predicate Accepted(d: seq<Byte>) {
    Executable(d) && HasHeader(d, U32(d, OFFSET_FIELD)) && KnownMagic(d, U32(d, OFFSET_FIELD))
  }

  /** What is accepted, byte by byte: both signatures, and one of the two optional headers. */
  lemma AcceptedMeans(d: seq<Byte>)
    ensures Accepted(d) <==>
              && |d| >= 256 && d[0] == 77 && d[1] == 90
              && var pe: int := d[60] as int + 256 * d[61] as int + 65536 * d[62] as int + 16777216 * d[63] as int;
                 && pe + 104 <= |d| && d[pe] == 80 && d[pe + 1] == 69 && d[pe + 2] == 0 && d[pe + 3] == 0
                 && d[pe + 24] == 11 && (d[pe + 25] == 1 || d[pe + 25] == 2)
  {
    if Executable(d) {
      var pe := U32(d, OFFSET_FIELD);
      if pe + 104 <= |d| {
        assert d[pe..pe + 4] == [d[pe], d[pe + 1], d[pe + 2], d[pe + 3]];
      }
    }
  }

  /** The eight bytes that may change: the timestamp and the checksum. */
  predicate Metadata(pe: int, i: int) {
    pe + 8 <= i < pe + 12 || pe + 88 <= i < pe + 92
  }

  // ---------- the checksum ----------

  /** The 16-bit word at an even position; a lone last byte counts as a low byte. */
  function WordAt(d: seq<Byte>, i: nat): (w: int)
    requires i < |d|
    ensures 0 <= w < WORD
  {
    d[i] as int + 256 * (if i + 1 < |d| then d[i + 1] as int else 0)
  }

  /** The plain sum of the first n words. */
  function WordSum(d: seq<Byte>, n: nat): (s: nat)
    requires 2 * n <= |d| + 1
  {
    if n == 0 then 0 else WordSum(d, n - 1) + WordAt(d, 2 * (n - 1))
  }

  function Fold(v: int): int {
    v % WORD + v / WORD
  }

  /** The only fold of a sum modulo 0xffff that keeps zero apart. */
  function Folded(sum: nat): (f: int)
    ensures 0 <= f <= 0xffff && (f == 0 <==> sum == 0)
  {
    if sum == 0 then 0 else (sum - 1) % 0xffff + 1
  }

  lemma FoldedIsCongruent(sum: nat)
    ensures Folded(sum) % 0xffff == sum % 0xffff
  {
  }

  /** Adding a word and folding once stays in 16 bits and is the fold of the sum. */
  lemma FoldStep(sum: nat, w: int)
    requires 0 <= w < WORD
    ensures Fold(Folded(sum) + w) == Folded(sum + w)
  {
    var v := Folded(sum) + w;
    if v < WORD {
      SmallMod(v, WORD);
    } else {
      DivStep(1, v - WORD, WORD);
    }
    if sum > 0 {
      var q, r := (sum - 1) / 0xffff, (sum - 1) % 0xffff;
      Divided(sum - 1, 0xffff);
      if r + w < 0xffff {
        DivStep(q, r + w, 0xffff);
      } else {
        DivStep(q + 1, r + w - 0xffff, 0xffff);
      }
    } else if w > 0 {
      SmallMod(w - 1, 0xffff);
    }
  }

  lemma FoldedStays(sum: nat)
    ensures Fold(Folded(sum)) == Folded(sum)
  {
  }

  function Blanked(d: seq<Byte>, pe: nat): (r: seq<Byte>)
    requires pe + 104 <= |d|
    ensures |r| == |d| && forall i :: 0 <= i < |d| ==> r[i] == if Metadata(pe, i) then 0 else d[i]
  {
    seq(|d|, i requires 0 <= i < |d| => if Metadata(pe, i) then 0 else d[i])
  }

  function Checksum(d: seq<Byte>): (c: int)
    ensures 0 <= c < LONG
  {
    (Folded(WordSum(d, (|d| + 1) / 2)) + |d|) % LONG
  }

  /** The canonical bytes of an executable. No byte of code is touched, so the closing check for that cannot fail. */
  function Normal(d: seq<Byte>, pe: nat): (r: seq<Byte>)
    requires pe + 104 <= |d|
    ensures |r| == |d| && forall i :: 0 <= i < |d| && !Metadata(pe, i) ==> r[i] == d[i]
    ensures r[pe + 8..pe + 12] == [0, 0, 0, 0]
  {
    var blank := Blanked(d, pe);
    var sum := Bytes32(Checksum(blank));
    seq(|d|, i requires 0 <= i < |d| => if pe + 88 <= i < pe + 92 then sum[i - pe - 88] else blank[i])
  }

  // ---------- the normaliser ----------

  method PackU32(data: array<Byte>, at: nat, v: int)
    requires at + 4 <= data.Length && 0 <= v < LONG
    modifies data
    ensures forall i ::
              0 <= i < data.Length ==> data[i] == if at <= i < at + 4 then Bytes32(v)[i - at] else old(data[i])
  {
    var bs := Bytes32(v);
    data[at], data[at + 1], data[at + 2], data[at + 3] := bs[0], bs[1], bs[2], bs[3];
  }

  method FoldWords(data: array<Byte>, checksumAt: nat) returns (value: int)
    requires checksumAt + 4 <= data.Length && forall i :: checksumAt <= i < checksumAt + 4 ==> data[i] == 0
    ensures value == Folded(WordSum(data[..], (data.Length + 1) / 2))
  {
    hide Folded;
    hide Fold;
    var d := data[..];
    value := 0;
    var i, n := 0, 0;
    while i < data.Length
      invariant 0 <= n && i == 2 * n && 2 * n <= data.Length + 1
      invariant value == Folded(WordSum(d, n))
      decreases data.Length - i
    {
      FoldStep(WordSum(d, n), WordAt(d, i));
      FoldedStays(WordSum(d, n));
      if i != checksumAt && i != checksumAt + 2 {
        value := value + (data[i] as int + (if i + 1 < data.Length then data[i + 1] as int else 0) * 256);
        value := Fold(value);
      }
      i := i + 2;
      n := n + 1;
    }
    FoldedStays(WordSum(d, n));
    value := Fold(value);
    value := Fold(value);
  }

  method NormalizeController(data: array<Byte>) returns (r: Result<int, Refusal>)
    modifies data
    ensures r.Ok? <==> Accepted(old(data[..]))
    ensures r.Err? ==> data[..] == old(data[..])
    ensures r.Ok? ==> data[..] == Normal(old(data[..]), U32(old(data[..]), OFFSET_FIELD))
    ensures r.Ok? ==> r.value == Checksum(Blanked(old(data[..]), U32(old(data[..]), OFFSET_FIELD)))
  {
    ghost var before := data[..];
    if data.Length < 256 || data[0] != 0x4d || data[1] != 0x5a {
      return Err(NotAnExecutable);
    }
    var pe := U32(data[..], OFFSET_FIELD);
    if pe + 104 > data.Length || data[pe..pe + 4] != [0x50, 0x45, 0, 0] {
      return Err(BadHeader);
    }
    var magic := U16(data[..], pe + 24);
    if magic != 0x10b && magic != 0x20b {
      return Err(UnknownMagic);
    }
    var checksum := Rewrite(data, pe);
    return Ok(checksum);
  }

  method Rewrite(data: array<Byte>, pe: nat) returns (checksum: int)
    requires pe + 104 <= data.Length
    modifies data
    ensures data[..] == Normal(old(data[..]), pe)
    ensures checksum == Checksum(Blanked(old(data[..]), pe))
  {
    hide Folded;
    ghost var before := data[..];
    PackU32(data, pe + 8, 0);
    PackU32(data, pe + 88, 0);
    ZeroBytes();
    assert data[..] == Blanked(before, pe);
    var value := FoldWords(data, pe + 88);
    checksum := (value + data.Length) % LONG;
    PackU32(data, pe + 88, checksum);
    assert data[..] == Normal(before, pe);
  }

  lemma ZeroBytes()
    ensures Bytes32(0) == [0, 0, 0, 0]
  {
  }

  // ---------- a canonical form ----------

  /** The bytes depend only on what is outside the eight metadata bytes. */
  lemma NormalForgetsMetadata(d: seq<Byte>, e: seq<Byte>, pe: nat)
    requires pe + 104 <= |d| == |e| && forall i :: 0 <= i < |d| && !Metadata(pe, i) ==> d[i] == e[i]
    ensures Normal(d, pe) == Normal(e, pe)
  {
    assert Blanked(d, pe) == Blanked(e, pe);
  }

  /** The header offset is stored below the metadata, unless its low byte is itself blanked as part of the timestamp. */
  predicate OffsetSurvives(pe: int) {
    pe < 0x31 || 0x34 < pe
  }

  lemma OffsetOfNormal(d: seq<Byte>)
    requires Accepted(d)
    ensures var pe := U32(d, OFFSET_FIELD);
            U32(Normal(d, pe), OFFSET_FIELD) == if OffsetSurvives(pe) then pe else 0
  {
  }

  /** Normalising again succeeds exactly when the header offset survives, and then changes nothing. */
  lemma NormalIsIdempotent(d: seq<Byte>)
    requires Accepted(d)
    ensures var pe := U32(d, OFFSET_FIELD); var n := Normal(d, pe);
            && (Accepted(n) <==> OffsetSurvives(pe))
            && (Accepted(n) ==> U32(n, OFFSET_FIELD) == pe && Normal(n, pe) == n)
  {
    var pe := U32(d, OFFSET_FIELD);
    var n := Normal(d, pe);
    OffsetOfNormal(d);
    NormalForgetsMetadata(d, n, pe);
    assert n[0] == d[0] && n[1] == d[1];
    assert d[pe..pe + 4] == n[pe..pe + 4];
    assert n[pe + 24] == d[pe + 24] && n[pe + 25] == d[pe + 25];
    hide Normal;
    if !OffsetSurvives(pe) {
      assert n[0..4][0] == 0x4d;
    }
  }

  // ---------- the checksum that is stored ----------

  lemma ReadBack(v: int)
    requires 0 <= v < LONG
    ensures U32(Bytes32(v), 0) == v
  {
  }

  lemma U32Slice(d: seq<Byte>, i: nat)
    requires i + 4 <= |d|
    ensures U32(d, i) == U32(d[i..i + 4], 0)
  {
  }

  /**
   The field at 88 bytes into the header, least byte first, is the end-around sum of the blanked words plus the
   length, modulo 2^32; a sum of zero stays apart from 65535.
   */
  lemma StoredChecksum(d: seq<Byte>, pe: nat)
    requires pe + 104 <= |d|
    ensures var n, sum := Normal(d, pe), WordSum(Blanked(d, pe), (|d| + 1) / 2);
            exists v :: && 0 <= v <= 65535 && (v == 0 <==> sum == 0) && v % 65535 == sum % 65535
                        && U32(n, pe + 88) == (v + |d|) % 0x1_0000_0000
  {
    var blank, n := Blanked(d, pe), Normal(d, pe);
    var c, sum := Checksum(blank), WordSum(blank, (|d| + 1) / 2);
    ReadBack(c);
    U32Slice(n, pe + 88);
    assert n[pe + 88..pe + 92] == Bytes32(c);
    FoldedIsCongruent(sum);
    assert c == (Folded(sum) + |d|) % LONG;
    hide Folded;
    hide WordSum;
    hide U32;
  }
}
