/** The file protocol: requests split into words, decoded, and handed to the file provider. */
module FileBroker {
  import opened Options
  import opened Integers
  import opened Base64

  const MAX_PROJECT_BYTES := 4 * 1024 * 1024
  const INT_MAX := 0x7FFF_FFFF

  /** What a message leads to; provider results come back later and are not part of this. */
  datatype Routed =
    | NotOurs
    | Silent
    | Refused(id: int, code: string)
    | Capabilities(id: int)
    | Open(id: int)
    | SaveAs(id: int, name: seq<Byte>, bytes: seq<Byte>)
    | Save(id: int, reference: string, bytes: seq<Byte>)
    | Release(id: int, reference: string)

  function Prefix(): string { "WEBEEBLOCKS_FILE_BROKER_V1 " }
  function RequestWord(): string { "REQUEST " }
  function SaveAsWord(): string { "SAVE_AS" }
  function SaveWord(): string { "SAVE" }

  // ---------- words ----------

  /** The characters that stream extraction skips. */
  predicate Space(c: char) {
    c == ' ' || 9 <= c as int <= 13
  }

  predicate Solid(s: string) {
    forall i :: 0 <= i < |s| ==> !Space(s[i])
  }

  function WordLength(s: string): (n: nat)
    ensures n <= |s| && Solid(s[..n]) && (n < |s| ==> Space(s[n]))
    ensures s != "" && !Space(s[0]) ==> n > 0
  {
    if s == "" || Space(s[0]) then 0
    else
      var n := WordLength(s[1..]) + 1;
      assert forall i :: 0 < i < n ==> s[i] == s[1..][..n - 1][i - 1];
      n
  }

  function Split(s: string): (parts: seq<string>)
    ensures forall i :: 0 <= i < |parts| ==> parts[i] != "" && Solid(parts[i])
    decreases |s|
  {
    if s == "" then []
    else if Space(s[0]) then Split(s[1..])
    else [s[..WordLength(s)]] + Split(s[WordLength(s)..])
  }

  method SplitWords(value: string) returns (parts: seq<string>)
    ensures parts == Split(value)
  {
    parts := [];
    var i := 0;
    assert value[0..] == value;
    while i < |value|
      invariant i <= |value| && parts + Split(value[i..]) == Split(value)
    {
      var rest := value[i..];
      if Space(value[i]) {
        assert rest[1..] == value[i + 1..];
        i := i + 1;
      } else {
        var n := WordLength(rest);
        assert rest[n..] == value[i + n..];
        parts := parts + [rest[..n]];
        i := i + n;
      }
    }
    assert value[i..] == "";
  }

  lemma {:induction false} WordLengthIs(word: string, rest: string)
    requires Solid(word) && (rest == "" || Space(rest[0]))
    ensures WordLength(word + rest) == |word|
  {
    if word == "" {
      assert word + rest == rest;
    } else {
      assert (word + rest)[1..] == word[1..] + rest;
      WordLengthIs(word[1..], rest);
    }
  }

  lemma SplitWord(word: string, rest: string)
    requires word != "" && Solid(word) && (rest == "" || Space(rest[0]))
    ensures Split(word + rest) == [word] + Split(rest)
  {
    WordLengthIs(word, rest);
    var s := word + rest;
    assert s[..|word|] == word && s[|word|..] == rest;
    assert s[0] == word[0];
    hide WordLength;
  }

  // ---------- numbers ----------

  predicate IsDigit(c: char) {
    '0' <= c <= '9'
  }

  /** The value of a string of digits. */
  function Number(s: string): (n: nat)
    requires forall i :: 0 <= i < |s| ==> IsDigit(s[i])
  {
    if s == "" then 0
    else
      assert IsDigit(s[|s| - 1]);
      10 * Number(s[..|s| - 1]) + (s[|s| - 1] as int - '0' as int)
  }

  /** A whole word that reads as a number of the platform's int type. */
  function ParseInt(word: string): Option<int> {
    var signed := word != "" && (word[0] == '-' || word[0] == '+');
    var digits := if signed then word[1..] else word;
    if digits == "" || exists i :: 0 <= i < |digits| && !IsDigit(digits[i]) then None
    else
      var n: int := Number(digits);
      if signed && word[0] == '-' then (if n <= INT_MAX + 1 then Some(-n) else None)
      else if n <= INT_MAX then Some(n) else None
  }

  function Decimal(n: nat): (s: string)
    ensures s != "" && forall i :: 0 <= i < |s| ==> IsDigit(s[i])
  {
    if n < 10 then [('0' as int + n) as char] else Decimal(n / 10) + [('0' as int + n % 10) as char]
  }

  lemma {:induction false} NumberOfDecimal(n: nat)
    ensures Number(Decimal(n)) == n
  {
    if n < 10 {
      assert Decimal(n)[..0] == "";
    } else {
      NumberOfDecimal(n / 10);
      var s := Decimal(n);
      assert s[..|s| - 1] == Decimal(n / 10);
      Divided(n, 10);
    }
  }

  /** A string of digits is read exactly when its value fits the type, alone or behind a sign. */
  lemma ParseDigits(s: string, n: nat)
    requires s != "" && (forall i :: 0 <= i < |s| ==> IsDigit(s[i])) && Number(s) == n
    ensures ParseInt(s).Some? <==> n <= 2147483647
    ensures ParseInt("+" + s).Some? <==> n <= 2147483647
    ensures ParseInt("-" + s).Some? <==> n <= 2147483648
    ensures n <= 2147483647 ==> ParseInt(s).value == n == ParseInt("+" + s).value
    ensures n <= 2147483648 ==> ParseInt("-" + s).value + n == 0
  {
    assert IsDigit(s[0]);
    assert ("+" + s)[1..] == s && ("-" + s)[1..] == s;
    hide Number;
  }

  lemma ParseDecimal(n: nat)
    ensures ParseInt(Decimal(n)) == if n <= 2147483647 then Some(n) else None
    ensures Solid(Decimal(n))
  {
    NumberOfDecimal(n);
    ParseDigits(Decimal(n), n);
    hide Decimal;
    hide Number;
    hide ParseInt;
  }

  lemma SpaceMeans(c: char)
    ensures Space(c) <==> c as int in {9, 10, 11, 12, 13, 32}
  {
  }

  // ---------- names ----------

  predicate SafeTokenChar(c: char) {
    'A' <= c <= 'Z' || 'a' <= c <= 'z' || IsDigit(c) || c == '_' || c == '-'
  }

  predicate SafeToken(s: string) {
    1 <= |s| <= 128 && forall i :: 0 <= i < |s| ==> SafeTokenChar(s[i])
  }

  /** A file name that stays in its directory. */
  predicate SafeName(name: seq<Byte>) {
    && 0 < |name| <= 255 && name != [46] && name != [46, 46]
    && forall i :: 0 <= i < |name| ==> name[i] != 47 && name[i] != 92 && name[i] != 0
  }

  /**
   A name is safe exactly when it names an entry of the directory it is used in: no separator, no NUL, no dots
   alone.
   */
  lemma SafeNameMeans(name: seq<Byte>)
    ensures SafeName(name) <==>
              1 <= |name| <= 255 && 47 !in name && 92 !in name && 0 !in name && name != [46] && name != [46, 46]
  {
  }

  /** A token is safe exactly when it has 1 to 128 letters, digits, underscores and hyphens. */
  lemma SafeTokenMeans(s: string)
    ensures SafeToken(s) <==>
              && s != [] && |s| <= 128
              && forall c :: c in s ==>
                   48 <= c as int <= 57 || 65 <= c as int <= 90 || 97 <= c as int <= 122 || c as int in {45, 95}
  {
    if SafeToken(s) {
      forall c | c in s
        ensures SafeTokenChar(c)
      {
        var i :| 0 <= i < |s| && s[i] == c;
      }
    } else if s != [] && |s| <= 128 {
      var i :| 0 <= i < |s| && !SafeTokenChar(s[i]);
      assert s[i] in s;
    }
  }

  // ---------- routing ----------

  function DecodedText(s: string): Option<seq<Byte>> {
    if |s| % 4 == 0 then Decoded(s) else None
  }

  function RouteSaveAs(id: int, name: Option<seq<Byte>>, bytes: Option<seq<Byte>>): Routed {
    if name.None? || bytes.None? || !SafeName(name.value) then Refused(id, "INVALID_REQUEST")
    else if |bytes.value| > MAX_PROJECT_BYTES then Refused(id, "PROJECT_TOO_LARGE")
    else SaveAs(id, name.value, bytes.value)
  }

  function RouteSave(id: int, reference: string, bytes: Option<seq<Byte>>): Routed {
    if !SafeToken(reference) || bytes.None? then Refused(id, "INVALID_REQUEST")
    else if |bytes.value| > MAX_PROJECT_BYTES then Refused(id, "PROJECT_TOO_LARGE")
    else Save(id, reference, bytes.value)
  }

  function RouteWords(id: int, words: seq<string>): Routed {
    if |words| == 0 then Refused(id, "INVALID_REQUEST")
    else if words[0] == "CAPABILITIES" && |words| == 1 then Capabilities(id)
    else if words[0] == "OPEN" && |words| == 1 then Open(id)
    else if words[0] == SaveAsWord() && |words| == 3 then RouteSaveAs(id, DecodedText(words[1]), DecodedText(words[2]))
    else if words[0] == SaveWord() && |words| == 3 then RouteSave(id, words[1], DecodedText(words[2]))
    else if words[0] == "RELEASE" && |words| == 2 then
      if SafeToken(words[1]) then Release(id, words[1]) else Refused(id, "INVALID_REQUEST")
    else Refused(id, "INVALID_REQUEST")
  }

  function RouteTail(tail: string): Routed {
    var parts := Split(tail);
    if parts == [] then Silent
    else
      var id := ParseInt(parts[0]);
      if id.None? || id.value < 1 then Silent else RouteWords(id.value, parts[1..])
  }

  function Route(message: string): Routed {
    if !(Prefix() <= message) then NotOurs
    else if !(Prefix() + RequestWord() <= message) then Silent
    else RouteTail(message[|Prefix() + RequestWord()|..])
  }

  /** The branches of the message handler, up to the call of the provider. */
  method HandleMessage(message: string) returns (r: Routed)
    ensures r == Route(message)
  {
    hide SafeName;
    hide SafeToken;
    hide Split;
    hide ParseInt;
    hide RouteWords;
    if !(Prefix() <= message) {
      return NotOurs;
    }
    var requestPrefix := Prefix() + RequestWord();
    if !(requestPrefix <= message) {
      return Silent;
    }
    var parts := SplitWords(message[|requestPrefix|..]);
    if parts == [] {
      return Silent;
    }
    var id := ParseInt(parts[0]);
    if id.None? || id.value < 1 {
      return Silent;
    }
    r := HandleWords(id.value, parts[1..]);
  }

  method HandleWords(id: int, words: seq<string>) returns (r: Routed)
    ensures r == RouteWords(id, words)
  {
    hide SafeName;
    hide SafeToken;
    hide Decoded;
    if |words| == 0 {
      return Refused(id, "INVALID_REQUEST");
    }
    if words[0] == "CAPABILITIES" && |words| == 1 {
      return Capabilities(id);
    }
    if words[0] == "OPEN" && |words| == 1 {
      return Open(id);
    }
    if words[0] == SaveAsWord() && |words| == 3 {
      r := HandleSaveAs(id, words[1], words[2]);
      return;
    }
    if words[0] == SaveWord() && |words| == 3 {
      r := HandleSave(id, words[1], words[2]);
      return;
    }
    if words[0] == "RELEASE" && |words| == 2 {
      return if SafeToken(words[1]) then Release(id, words[1]) else Refused(id, "INVALID_REQUEST");
    }
    return Refused(id, "INVALID_REQUEST");
  }

  method HandleSaveAs(id: int, first: string, second: string) returns (r: Routed)
    ensures r == RouteSaveAs(id, DecodedText(first), DecodedText(second))
  {
    hide SafeName;
    hide Decoded;
    var name := Decode(first);
    var bytes := None;
    if name.Some? {
      bytes := Decode(second);
    }
    if name.None? || bytes.None? || !SafeName(name.value) {
      return Refused(id, "INVALID_REQUEST");
    }
    if |bytes.value| > MAX_PROJECT_BYTES {
      return Refused(id, "PROJECT_TOO_LARGE");
    }
    return SaveAs(id, name.value, bytes.value);
  }

  method HandleSave(id: int, reference: string, second: string) returns (r: Routed)
    ensures r == RouteSave(id, reference, DecodedText(second))
  {
    hide SafeToken;
    hide Decoded;
    var bytes := None;
    if SafeToken(reference) {
      bytes := Decode(second);
    }
    if !SafeToken(reference) || bytes.None? {
      return Refused(id, "INVALID_REQUEST");
    }
    if |bytes.value| > MAX_PROJECT_BYTES {
      return Refused(id, "PROJECT_TOO_LARGE");
    }
    return Save(id, reference, bytes.value);
  }

  // ---------- framing ----------

  /** A SAVE_AS request as a client writes it. */
  function Frame(id: nat, name: seq<Byte>, bytes: seq<Byte>): string {
    Prefix() + RequestWord() + (Decimal(id) + " " + (SaveAsWord() + " " + (Encoded(name) + " " + Encoded(bytes))))
  }

  lemma EncodedIsSolid(bs: seq<Byte>)
    ensures Solid(Encoded(bs))
  {
    EncodingChars(bs);
    hide Encoded;
    var s := Encoded(bs);
    forall i | 0 <= i < |s|
      ensures !Space(s[i])
    {
      assert EncodingChar(s[i]);
    }
  }

  lemma EncodedEmpty(bs: seq<Byte>)
    ensures Encoded(bs) == "" <==> bs == []
  {
  }

  /** A word and what follows after one space. */
  lemma SplitOne(word: string, rest: string)
    requires word != "" && Solid(word)
    ensures Split(word + " " + rest) == [word] + Split(rest)
  {
    assert word + " " + rest == word + (" " + rest);
    SplitWord(word, " " + rest);
    hide Split;
  }

  /** The words of the two payloads: an empty payload leaves no word. */
  lemma SplitPayloads(name: seq<Byte>, bytes: seq<Byte>)
    ensures Split(Encoded(name) + " " + Encoded(bytes))
         == (if name == [] then [] else [Encoded(name)]) + (if bytes == [] then [] else [Encoded(bytes)])
  {
    EncodedIsSolid(name);
    EncodedIsSolid(bytes);
    EncodedEmpty(name);
    EncodedEmpty(bytes);
    var n, b := Encoded(name), Encoded(bytes);
    hide Encoded;
    assert Split("") == [];
    if n == "" {
      assert n + " " + b == " " + b;
    } else {
      SplitOne(n, b);
    }
    if b != "" {
      assert b + "" == b;
      SplitWord(b, "");
    }
    hide Split;
  }

  lemma SplitFrame(id: nat, operation: string, rest: string)
    requires id <= INT_MAX && operation != "" && Solid(operation)
    ensures Split(Decimal(id) + " " + (operation + " " + rest)) == [Decimal(id), operation] + Split(rest)
  {
    hide *;
    ParseDecimal(id);
    SplitOne(Decimal(id), operation + " " + rest);
    SplitOne(operation, rest);
  }

  lemma SaveAsIsSolid()
    ensures SaveAsWord() != "" && Solid(SaveAsWord())
  {
  }

  /** Four words route to SAVE_AS with the decoded payloads; fewer are refused. */
  lemma RouteFramed(id: int, name: seq<Byte>, bytes: seq<Byte>, payloads: seq<string>)
    requires payloads == (if name == [] then [] else [Encoded(name)]) + (if bytes == [] then [] else [Encoded(bytes)])
    ensures RouteWords(id, [SaveAsWord()] + payloads) == if name == [] || bytes == []
            then Refused(id, "INVALID_REQUEST")
                                                         else RouteSaveAs(id, Some(name), Some(bytes))
  {
    DecodeAfterEncode(name);
    DecodeAfterEncode(bytes);
    hide Encoded;
    hide Decoded;
    hide RouteSaveAs;
    hide RouteSave;
    hide SafeToken;
    assert SaveAsWord()[0] == 'S' && SaveAsWord()[4] == '_';
    assert |SaveAsWord()| == 7;
  }

  lemma RouteStripsPrefix(tail: string)
    ensures Route(Prefix() + RequestWord() + tail) == RouteTail(tail)
  {
    hide Prefix;
    hide RequestWord;
    hide RouteTail;
    assert (Prefix() + RequestWord() + tail)[|Prefix() + RequestWord()|..] == tail;
  }

  /** The words of a framed request behind the prefix. */
  lemma RouteOfWords(id: nat, operation: string, tail: string, rest: seq<string>)
    requires 1 <= id <= INT_MAX && Split(tail) == [Decimal(id), operation] + rest
    ensures RouteTail(tail) == RouteWords(id, [operation] + rest)
  {
    ParseDecimal(id);
    hide Split;
    hide Decimal;
    hide ParseInt;
    hide RouteWords;
    assert ([Decimal(id), operation] + rest)[1..] == [operation] + rest;
  }

  /**
   What becomes of every framed SAVE_AS: it reaches the provider, with the same name and bytes, exactly
   when the name is safe and there are some bytes but no more than the limit.
   */
  lemma FramedSaveAs(id: nat, name: seq<Byte>, bytes: seq<Byte>)
    requires 1 <= id <= INT_MAX
    ensures Route(Frame(id, name, bytes)) ==
              if name == [] || bytes == [] || !SafeName(name) then Refused(id, "INVALID_REQUEST")
              else if |bytes| > 4 * 1024 * 1024 then Refused(id, "PROJECT_TOO_LARGE")
              else SaveAs(id, name, bytes)
  {
    hide Split;
    hide Route;
    hide RouteTail;
    hide RouteWords;
    hide Decimal;
    hide SaveAsWord;
    hide Encoded;
    hide Prefix;
    hide RequestWord;
    var payload := Encoded(name) + " " + Encoded(bytes);
    var tail := Decimal(id) + " " + (SaveAsWord() + " " + payload);
    RouteStripsPrefix(tail);
    SplitPayloads(name, bytes);
    SaveAsIsSolid();
    SplitFrame(id, SaveAsWord(), payload);
    RouteOfWords(id, SaveAsWord(), tail, Split(payload));
    RouteFramed(id, name, bytes, Split(payload));
  }

  /** A SAVE request as a client writes it. */
  function FrameSave(id: nat, reference: string, bytes: seq<Byte>): string {
    Prefix() + RequestWord() + (Decimal(id) + " " + (SaveWord() + " " + (reference + " " + Encoded(bytes))))
  }

  lemma SaveIsSolid()
    ensures SaveWord() != "" && Solid(SaveWord())
  {
  }

  lemma SplitSave(reference: string, bytes: seq<Byte>)
    requires reference != "" && Solid(reference)
    ensures Split(reference + " " + Encoded(bytes)) == [reference] + if bytes == [] then [] else [Encoded(bytes)]
  {
    EncodedIsSolid(bytes);
    EncodedEmpty(bytes);
    var b := Encoded(bytes);
    hide Encoded;
    SplitOne(reference, b);
    assert Split("") == [];
    if b != "" {
      assert b + "" == b;
      SplitWord(b, "");
    }
    hide Split;
  }

  lemma RouteSaved(id: int, reference: string, bytes: seq<Byte>, rest: seq<string>)
    requires rest == [reference] + if bytes == [] then [] else [Encoded(bytes)]
    ensures RouteWords(id, [SaveWord()] + rest) == if bytes == [] then Refused(id, "INVALID_REQUEST")
                                                   else RouteSave(id, reference, Some(bytes))
  {
    DecodeAfterEncode(bytes);
    hide Encoded;
    hide Decoded;
    hide RouteSaveAs;
    hide RouteSave;
    hide SafeToken;
    assert SaveWord()[0] == 'S' && |SaveWord()| == 4 && |SaveAsWord()| == 7;
  }

  /**
   What becomes of every framed SAVE: it reaches the provider, with the same reference and bytes, exactly when the
   reference is a safe token and there are some bytes but no more than the limit.
   */
  lemma FramedSave(id: nat, reference: string, bytes: seq<Byte>)
    requires 1 <= id <= INT_MAX && reference != "" && Solid(reference)
    ensures Route(FrameSave(id, reference, bytes)) ==
              if bytes == [] || !SafeToken(reference) then Refused(id, "INVALID_REQUEST")
              else if |bytes| > 4 * 1024 * 1024 then Refused(id, "PROJECT_TOO_LARGE")
              else Save(id, reference, bytes)
  {
    hide Split;
    hide Route;
    hide RouteTail;
    hide RouteWords;
    hide Decimal;
    hide SaveWord;
    hide Encoded;
    hide Prefix;
    hide RequestWord;
    hide SafeToken;
    var payload := reference + " " + Encoded(bytes);
    var tail := Decimal(id) + " " + (SaveWord() + " " + payload);
    RouteStripsPrefix(tail);
    SplitSave(reference, bytes);
    SaveIsSolid();
    SplitFrame(id, SaveWord(), payload);
    RouteOfWords(id, SaveWord(), tail, Split(payload));
    RouteSaved(id, reference, bytes, Split(payload));
  }
}
