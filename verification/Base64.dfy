/** The base64 of the file protocol (section 4 of RFC 4648), as encoded and as decoded. */
module Base64 {
  import opened Options
  import opened Integers

  /** The alphabet, as the value each character stands for. */
  function ValueOf(c: char): (v: int)
    ensures -1 <= v < 64
  {
    if 'A' <= c <= 'Z' then c as int - 'A' as int
    else if 'a' <= c <= 'z' then c as int - 'a' as int + 26
    else if '0' <= c <= '9' then c as int - '0' as int + 52
    else if c == '+' then 62
    else if c == '/' then 63
    else -1
  }

  function Symbol(v: int): (c: char)
    requires 0 <= v < 64
    ensures ValueOf(c) == v && c != '='
  {
    if v < 26 then 'A' + v as char
    else if v < 52 then 'a' + (v - 26) as char
    else if v < 62 then '0' + (v - 52) as char
    else if v == 62 then '+'
    else '/'
  }

  lemma SymbolOfValue(c: char)
    requires ValueOf(c) >= 0
    ensures Symbol(ValueOf(c)) == c && c != '='
  {
  }

  // ---------- three bytes as four sextets ----------

  function Join3(a: Byte, b: Byte, c: Byte): (v: int)
    ensures 0 <= v < 0x100_0000
  {
    (a * 256 + b) * 256 + c
  }

  /** The low six bits after a right shift; a shift is a repeated division by 64. */
  function Sextet(v: int, shift: int): (q: int)
    requires 0 <= v < 0x100_0000 && shift in {0, 6, 12, 18}
    ensures 0 <= q < 64
  {
    (if shift == 18 then v / 64 / 64 / 64 else if shift == 12 then v / 64 / 64 else if shift == 6 then v / 64
        else v) % 64
  }

  function Join4(a: int, b: int, c: int, d: int): (v: int)
    requires 0 <= a < 64 && 0 <= b < 64 && 0 <= c < 64 && 0 <= d < 64
    ensures 0 <= v < 0x100_0000
  {
    ((a * 64 + b) * 64 + c) * 64 + d
  }

  function Octet(v: int, shift: int): (b: Byte)
    requires 0 <= v < 0x100_0000 && shift in {0, 8, 16}
  {
    (if shift == 16 then v / 256 / 256 else if shift == 8 then v / 256 else v) % 256
  }

  lemma OctetsOfJoin(a: Byte, b: Byte, c: Byte)
    ensures var v := Join3(a, b, c); Octet(v, 16) == a && Octet(v, 8) == b && Octet(v, 0) == c
  {
    DivStep(a * 256 + b, c, 256);
    DivStep(a, b, 256);
  }

  lemma SextetsOfJoin(a: int, b: int, c: int, d: int)
    requires 0 <= a < 64 && 0 <= b < 64 && 0 <= c < 64 && 0 <= d < 64
    ensures var v := Join4(a, b, c, d);
              Sextet(v, 18) == a && Sextet(v, 12) == b && Sextet(v, 6) == c && Sextet(v, 0) == d
  {
    DivStep((a * 64 + b) * 64 + c, d, 64);
    DivStep(a * 64 + b, c, 64);
    DivStep(a, b, 64);
  }

  lemma JoinOfSextets(v: int)
    requires 0 <= v < 0x100_0000
    ensures Join4(Sextet(v, 18), Sextet(v, 12), Sextet(v, 6), Sextet(v, 0)) == v
  {
  }

  lemma JoinOfOctets(v: int)
    requires 0 <= v < 0x100_0000
    ensures Join3(Octet(v, 16), Octet(v, 8), Octet(v, 0)) == v
  {
  }

  lemma FourDivides(m: int)
    ensures (4 * m) % 64 % 4 == 0
  {
  }

  /** Missing bytes are zero, so the sextets that padding replaces are zero and so are the bits below the last byte. */
  lemma PaddingIsZero(a: Byte, b: Byte)
    ensures Sextet(Join3(a, b, 0), 0) == 0 && Sextet(Join3(a, b, 0), 6) % 4 == 0
    ensures Sextet(Join3(a, 0, 0), 0) == 0 && Sextet(Join3(a, 0, 0), 6) == 0 && Sextet(Join3(a, 0, 0), 12) % 16 == 0
  {
    DivStep((a * 256 + b) * 4, 0, 64);
    FourDivides(a * 256 + b);
    DivStep(a * 1024, 0, 64);
    DivStep(a * 16, 0, 64);
  }

  // ---------- encoding ----------

  /** One group: up to three bytes as four characters. */
  function Group(bs: seq<Byte>): (s: string)
    requires 0 < |bs| <= 3
    ensures |s| == 4
  {
    var v := Join3(bs[0], if |bs| > 1 then bs[1] else 0, if |bs| > 2 then bs[2] else 0);
    [Symbol(Sextet(v, 18)), Symbol(Sextet(v, 12)),
     if |bs| > 1 then Symbol(Sextet(v, 6)) else '=', if |bs| > 2 then Symbol(Sextet(v, 0)) else '=']
  }

  function Encoded(bs: seq<Byte>): string {
    if bs == [] then ""
    else if |bs| <= 3 then Group(bs)
    else Group(bs[..3]) + Encoded(bs[3..])
  }

  function From(input: seq<Byte>, i: nat): seq<Byte> {
    if i <= |input| then input[i..] else []
  }

  method Encode(input: seq<Byte>) returns (output: string)
    ensures output == Encoded(input)
  {
    hide Encoded;
    output := "";
    var i := 0;
    assert From(input, 0) == input;
    NothingEncoded();
    while i < |input|
      invariant 0 <= i && output + Encoded(From(input, i)) == Encoded(input)
      decreases |input| - i
    {
      var value := Join3(input[i], if i + 1 < |input| then input[i + 1] else 0, if i + 2 < |input| then input[i + 2]
          else 0);
      var group := [Symbol(Sextet(value, 18)), Symbol(Sextet(value, 12)),
                    if i + 1 < |input| then Symbol(Sextet(value, 6)) else '=',
                    if i + 2 < |input| then Symbol(Sextet(value, 0)) else '='];
      EncodedStep(input, i, group);
      output := output + group;
      i := i + 3;
    }
    assert From(input, i) == [];
  }

  lemma NothingEncoded()
    ensures Encoded([]) == ""
  {
  }

  lemma EncodedStep(input: seq<Byte>, i: nat, group: string)
    requires i < |input|
    requires var value := Join3(input[i], if i + 1 < |input| then input[i + 1] else 0, if i + 2 < |input|
             then input[i + 2] else 0);
             group == [Symbol(Sextet(value, 18)), Symbol(Sextet(value, 12)),
                       if i + 1 < |input| then Symbol(Sextet(value, 6)) else '=',
                       if i + 2 < |input| then Symbol(Sextet(value, 0)) else '=']
    ensures Encoded(From(input, i)) == group + Encoded(From(input, i + 3))
  {
  }

  // ---------- decoding ----------

  predicate Padded(s: string)
    requires |s| == 4
  {
    s[2] == '=' || s[3] == '='
  }

  function Digit(c: char): int {
    if c == '=' then 0 else ValueOf(c)
  }

  predicate WellFormed(s: string, last: bool)
    requires |s| == 4
  {
    && (Padded(s) ==> last) && (s[2] == '=' ==> s[3] == '=')
    && ValueOf(s[0]) >= 0 && ValueOf(s[1]) >= 0 && Digit(s[2]) >= 0 && Digit(s[3]) >= 0
  }

  function Bytes(s: string): (bs: seq<Byte>)
    requires |s| == 4 && WellFormed(s, true)
    ensures 0 < |bs| <= 3
  {
    var v := Join4(ValueOf(s[0]), ValueOf(s[1]), Digit(s[2]), Digit(s[3]));
    [Octet(v, 16)] + (if s[2] != '=' then [Octet(v, 8)] else []) + (if s[3] != '=' then [Octet(v, 0)] else [])
  }

  function Decoded(s: string): Option<seq<Byte>> {
    if s == "" then Some([])
    else if |s| < 4 || !WellFormed(s[..4], |s| == 4) then None
    else After(Bytes(s[..4]), Decoded(s[4..]))
  }

  method Decode(input: string) returns (r: Option<seq<Byte>>)
    ensures r == if |input| % 4 == 0 then Decoded(input) else None
  {
    hide WellFormed;
    hide Bytes;
    if |input| % 4 != 0 {
      return None;
    }
    var output: seq<Byte> := [];
    var i := 0;
    assert input[0..] == input;
    NothingBefore(Decoded(input));
    while i < |input|
      invariant 0 <= i <= |input| && i % 4 == 0 && Decoded(input) == After(output, Decoded(input[i..]))
      decreases |input| - i
    {
      ghost var rest := input[i..];
      assert rest[4..] == input[i + 4..] && rest[..4] == input[i..i + 4];
      var bytes := DecodeGroup(input[i..i + 4], i + 4 == |input|);
      if bytes.None? {
        return None;
      }
      AfterBoth(output, bytes.value, Decoded(rest[4..]));
      output := output + bytes.value;
      i := i + 4;
    }
    assert input[i..] == "";
    assert output + [] == output;
    return Some(output);
  }

  function After(front: seq<Byte>, rest: Option<seq<Byte>>): Option<seq<Byte>> {
    if rest.None? then None else Some(front + rest.value)
  }

  lemma NothingBefore(rest: Option<seq<Byte>>)
    ensures After([], rest) == rest
  {
    if rest.Some? {
      assert [] + rest.value == rest.value;
    }
  }

  lemma AfterBoth(a: seq<Byte>, b: seq<Byte>, rest: Option<seq<Byte>>)
    ensures After(a, After(b, rest)) == After(a + b, rest)
  {
    if rest.Some? {
      assert a + (b + rest.value) == (a + b) + rest.value;
    }
  }

  /** One group of four characters. */
  method DecodeGroup(s: string, last: bool) returns (r: Option<seq<Byte>>)
    requires |s| == 4
    ensures r.Some? <==> WellFormed(s, last)
    ensures r.Some? ==> r.value == Bytes(s)
  {
    var c2, c3 := s[2], s[3];
    if (!last && (c2 == '=' || c3 == '=')) || (c2 == '=' && c3 != '=') {
      return None;
    }
    var a, b := ValueOf(s[0]), ValueOf(s[1]);
    var c := if c2 == '=' then 0 else ValueOf(c2);
    var d := if c3 == '=' then 0 else ValueOf(c3);
    if a < 0 || b < 0 || c < 0 || d < 0 {
      return None;
    }
    var value := Join4(a, b, c, d);
    var output := [Octet(value, 16)];
    if c2 != '=' {
      output := output + [Octet(value, 8)];
    }
    if c3 != '=' {
      output := output + [Octet(value, 0)];
    }
    return Some(output);
  }

  // ---------- round trips ----------

  lemma GroupRoundTrip(bs: seq<Byte>)
    requires 0 < |bs| <= 3
    ensures WellFormed(Group(bs), true) && Bytes(Group(bs)) == bs
    ensures |bs| == 3 ==> WellFormed(Group(bs), false)
  {
    var a, b, c := bs[0], if |bs| > 1 then bs[1] else 0, if |bs| > 2 then bs[2] else 0;
    var v := Join3(a, b, c);
    JoinOfSextets(v);
    OctetsOfJoin(a, b, c);
    PaddingIsZero(a, b);
    hide Join3;
    hide Join4;
    hide Sextet;
    hide Octet;
    hide ValueOf;
    hide Symbol;
  }

  /** Decoding what was encoded gives the bytes back. */
  lemma {:induction false} DecodeAfterEncode(bs: seq<Byte>)
    ensures Decoded(Encoded(bs)) == Some(bs) && |Encoded(bs)| % 4 == 0
    decreases |bs|
  {
    hide WellFormed;
    hide Bytes;
    hide Group;
    if bs == [] {
    } else if |bs| <= 3 {
      GroupRoundTrip(bs);
      var s := Encoded(bs);
      assert s[..4] == s && s[4..] == "";
      assert Decoded(s) == After(Bytes(s), Decoded(""));
      assert bs + [] == bs;
    } else {
      GroupRoundTrip(bs[..3]);
      DecodeAfterEncode(bs[3..]);
      var s := Encoded(bs);
      assert s[..4] == Group(bs[..3]) && s[4..] == Encoded(bs[3..]);
      assert bs == bs[..3] + bs[3..];
    }
  }

  predicate EncodingChar(c: char) {
    ValueOf(c) >= 0 || c == '='
  }

  lemma {:induction false} EncodingChars(bs: seq<Byte>)
    ensures forall i :: 0 <= i < |Encoded(bs)| ==> EncodingChar(Encoded(bs)[i])
    decreases |bs|
  {
    if bs != [] {
      hide Group;
      if |bs| > 3 {
        EncodingChars(bs[3..]);
      }
    }
  }

  /** The bits that padding cuts off are zero. */
  predicate Tight(s: string)
    requires |s| == 4
  {
    && (s[2] == '=' ==> ValueOf(s[1]) % 16 == 0)
    && (s[2] != '=' && s[3] == '=' ==> ValueOf(s[2]) % 4 == 0)
  }

  predicate Canonical(s: string) {
    |s| >= 4 ==> Tight(s[|s| - 4..])
  }

  lemma GroupIsTight(s: string)
    requires |s| == 4 && WellFormed(s, true)
    ensures Group(Bytes(s)) == s <==> Tight(s)
  {
    var a, b, c, d := ValueOf(s[0]), ValueOf(s[1]), Digit(s[2]), Digit(s[3]);
    var v := Join4(a, b, c, d);
    SextetsOfJoin(a, b, c, d);
    SymbolOfValue(s[0]);
    SymbolOfValue(s[1]);
    if s[2] != '=' {
      SymbolOfValue(s[2]);
    }
    if s[3] != '=' {
      SymbolOfValue(s[3]);
      JoinOfOctets(v);
    } else if s[2] != '=' {
      CutAfterTwo(a, b, c);
    } else {
      CutAfterOne(a, b);
    }
    hide ValueOf;
    hide Symbol;
    hide Join3;
    hide Join4;
    hide Sextet;
    hide Octet;
  }

  /** Re-encoding the two whole bytes of a padded group drops the last two bits of its third sextet. */
  lemma CutAfterTwo(a: int, b: int, c: int)
    requires 0 <= a < 64 && 0 <= b < 64 && 0 <= c < 64
    ensures var v := Join4(a, b, c, 0); var w := Join3(Octet(v, 16), Octet(v, 8), 0);
            Sextet(w, 18) == a && Sextet(w, 12) == b && Sextet(w, 6) == c - c % 4
  {
    var v, cut := Join4(a, b, c, 0), c - c % 4;
    var m := (a * 64 + b) * 16 + c / 4;
    assert c == 4 * (c / 4) + c % 4 && v == m * 256 + (c % 4) * 64;
    DivStep(m, (c % 4) * 64, 256);
    DivBound(m, 256, 256);
    SmallMod(m / 256, 256);
    assert Join3(Octet(v, 16), Octet(v, 8), 0) == m * 256;
    assert Join4(a, b, cut, 0) == m * 256;
    SextetsOfJoin(a, b, cut, 0);
  }

  lemma CutAfterOne(a: int, b: int)
    requires 0 <= a < 64 && 0 <= b < 64
    ensures var v := Join4(a, b, 0, 0); var w := Join3(Octet(v, 16), 0, 0);
            Sextet(w, 18) == a && Sextet(w, 12) == b - b % 16
  {
    var v, cut := Join4(a, b, 0, 0), b - b % 16;
    var m := a * 4 + b / 16;
    assert b == 16 * (b / 16) + b % 16 && v == (m * 256 + (b % 16) * 16) * 256;
    DivStep(m * 256 + (b % 16) * 16, 0, 256);
    DivStep(m, (b % 16) * 16, 256);
    SmallMod(m, 256);
    assert Join3(Octet(v, 16), 0, 0) == m * 0x1_0000;
    assert Join4(a, cut, 0, 0) == m * 0x1_0000;
    SextetsOfJoin(a, cut, 0, 0);
  }

  /** Encoding what was decoded gives the text back exactly when no discarded bit is set. */
  lemma {:induction false} EncodeAfterDecode(s: string)
    requires Decoded(s).Some?
    ensures Encoded(Decoded(s).value) == s <==> Canonical(s)
    decreases |s|
  {
    hide WellFormed;
    hide Bytes;
    hide Group;
    hide Tight;
    if s != "" {
      var group, rest := s[..4], s[4..];
      LastGroup(group, rest, |s| == 4);
      GroupIsTight(group);
      if rest == "" {
        assert s[|s| - 4..] == group;
        assert Decoded(s).value == Bytes(group);
      } else {
        EncodeAfterDecode(rest);
        FullGroup(group);
        var bytes, more := Bytes(group), Decoded(rest).value;
        assert (bytes + more)[..3] == bytes && (bytes + more)[3..] == more;
        assert Encoded(bytes + more) == Group(bytes) + Encoded(more);
        assert s == group + rest;
        assert rest[|rest| - 4..] == s[|s| - 4..];
      }
    }
  }

  lemma LastGroup(group: string, rest: string, last: bool)
    requires |group| == 4 && WellFormed(group, last)
    ensures WellFormed(group, true)
  {
  }

  lemma FullGroup(group: string)
    requires |group| == 4 && WellFormed(group, false)
    ensures WellFormed(group, true) && |Bytes(group)| == 3 && Tight(group)
  {
  }

  /** A text that decodes although it is not an encoding: the four low bits of B are dropped. */
  lemma SloppyTextDecodes()
    ensures Decoded("AB==") == Some([0]) && Encoded([0]) == "AA=="
  {
    var s := "AB==";
    assert s[..4] == s && s[4..] == "";
    assert WellFormed(s, true) && Bytes(s) == [Octet(Join4(0, 1, 0, 0), 16)];
    DivStep(16, 0, 256);
    DivStep(0, 16, 256);
    assert Bytes(s) == [0];
    assert Decoded(s) == After(Bytes(s), Decoded(""));
    var zero: seq<Byte> := [0];
    assert zero + [] == zero;
    assert Group([0]) == [Symbol(Sextet(0, 18)), Symbol(Sextet(0, 12)), '=', '='];
  }
}
