/** Base64 with the standard alphabet and padding (RFC 4648, section 4), as Go's StdEncoding
    prints it and reads it: line breaks are skipped, and a malformed input yields the bytes
    decoded before the malformed group. */
module Base64 {
  type Byte = b: int | 0 <= b < 256

  function Symbol(v: nat): char
    requires v < 64
  {
    if v < 26 then ('A' as int + v) as char
    else if v < 52 then ('a' as int + v - 26) as char
    else if v < 62 then ('0' as int + v - 52) as char
    else if v == 62 then '+'
    else '/'
  }

  predicate IsSymbol(c: char) {
    'A' <= c <= 'Z' || 'a' <= c <= 'z' || '0' <= c <= '9' || c == '+' || c == '/'
  }

  function SymbolValue(c: char): (v: nat)
    requires IsSymbol(c)
    ensures v < 64
  {
    if 'A' <= c <= 'Z' then c as int - 'A' as int
    else if 'a' <= c <= 'z' then c as int - 'a' as int + 26
    else if '0' <= c <= '9' then c as int - '0' as int + 52
    else if c == '+' then 62
    else 63
  }

  lemma SymbolRoundTrip(v: nat)
    requires v < 64
    ensures IsSymbol(Symbol(v)) && SymbolValue(Symbol(v)) == v
  {
  }

  function Encode(bs: seq<Byte>): string {
    if |bs| == 0 then ""
    else if |bs| == 1 then
      [Symbol(bs[0] / 4), Symbol(bs[0] % 4 * 16), '=', '=']
    else if |bs| == 2 then
      [Symbol(bs[0] / 4), Symbol(bs[0] % 4 * 16 + bs[1] / 16), Symbol(bs[1] % 16 * 4), '=']
    else
      [Symbol(bs[0] / 4), Symbol(bs[0] % 4 * 16 + bs[1] / 16),
       Symbol(bs[1] % 16 * 4 + bs[2] / 64), Symbol(bs[2] % 64)] + Encode(bs[3..])
  }

  function SkipLineBreaks(s: string): string {
    if s == "" then ""
    else if s[0] == '\r' || s[0] == '\n' then SkipLineBreaks(s[1..])
    else [s[0]] + SkipLineBreaks(s[1..])
  }

  function DecodeGroups(s: string): seq<Byte> {
    if |s| < 4 || !IsSymbol(s[0]) || !IsSymbol(s[1]) then []
    else
      var v0, v1 := SymbolValue(s[0]), SymbolValue(s[1]);
      var b0: Byte := v0 * 4 + v1 / 16;
      if s[2] == '=' && s[3] == '=' then [b0]
      else if !IsSymbol(s[2]) then []
      else
        var v2 := SymbolValue(s[2]);
        var b1: Byte := v1 % 16 * 16 + v2 / 4;
        if s[3] == '=' then [b0, b1]
        else if !IsSymbol(s[3]) then []
        else
          var b2: Byte := v2 % 4 * 64 + SymbolValue(s[3]);
          [b0, b1, b2] + DecodeGroups(s[4..])
  }

  function Decode(s: string): seq<Byte> {
    DecodeGroups(SkipLineBreaks(s))
  }

  lemma DecodeLastOne(b0: Byte)
    ensures DecodeGroups(Encode([b0])) == [b0]
  {
    SymbolRoundTrip(b0 / 4);
    SymbolRoundTrip(b0 % 4 * 16);
  }

  lemma DecodeLastTwo(b0: Byte, b1: Byte)
    ensures DecodeGroups(Encode([b0, b1])) == [b0, b1]
  {
    SymbolRoundTrip(b0 / 4);
    SymbolRoundTrip(b0 % 4 * 16 + b1 / 16);
    SymbolRoundTrip(b1 % 16 * 4);
  }

  lemma DecodeOneGroup(b0: Byte, b1: Byte, b2: Byte, rest: string)
    ensures
      var group := [Symbol(b0 / 4), Symbol(b0 % 4 * 16 + b1 / 16),
                    Symbol(b1 % 16 * 4 + b2 / 64), Symbol(b2 % 64)];
      DecodeGroups(group + rest) == [b0, b1, b2] + DecodeGroups(rest)
  {
    var v0, v1, v2, v3 := b0 / 4, b0 % 4 * 16 + b1 / 16, b1 % 16 * 4 + b2 / 64, b2 % 64;
    SymbolRoundTrip(v0);
    SymbolRoundTrip(v1);
    SymbolRoundTrip(v2);
    SymbolRoundTrip(v3);
    var s := [Symbol(v0), Symbol(v1), Symbol(v2), Symbol(v3)] + rest;
    assert s[4..] == rest;
    assert s[0] == Symbol(v0) && s[1] == Symbol(v1) && s[2] == Symbol(v2) && s[3] == Symbol(v3);
    assert v0 * 4 + v1 / 16 == b0;
    assert v1 % 16 * 16 + v2 / 4 == b1;
    assert v2 % 4 * 64 + v3 == b2;
  }

  lemma {:induction false} DecodeGroupsEncode(bs: seq<Byte>)
    ensures DecodeGroups(Encode(bs)) == bs
  {
    if |bs| == 1 {
      assert bs == [bs[0]];
      DecodeLastOne(bs[0]);
    } else if |bs| == 2 {
      assert bs == [bs[0], bs[1]];
      DecodeLastTwo(bs[0], bs[1]);
    } else if |bs| > 2 {
      DecodeGroupsEncode(bs[3..]);
      DecodeOneGroup(bs[0], bs[1], bs[2], Encode(bs[3..]));
      assert bs == [bs[0], bs[1], bs[2]] + bs[3..];
    }
  }

  predicate Printable(s: string) {
    forall i | 0 <= i < |s| :: IsSymbol(s[i]) || s[i] == '='
  }

  lemma {:induction false} EncodePrintable(bs: seq<Byte>)
    ensures Printable(Encode(bs))
  {
    if |bs| > 2 {
      EncodePrintable(bs[3..]);
    }
  }

  lemma {:induction false} NoLineBreaks(s: string)
    requires Printable(s)
    ensures SkipLineBreaks(s) == s
  {
    if s != "" {
      assert Printable(s[1..]);
      NoLineBreaks(s[1..]);
    }
  }

  /** Decoding an encoded body gives the body back. */
  lemma RoundTrip(bs: seq<Byte>)
    ensures Decode(Encode(bs)) == bs
  {
    EncodePrintable(bs);
    NoLineBreaks(Encode(bs));
    DecodeGroupsEncode(bs);
  }

  /** The encodings of "f", "fo", "foo" and "foob" given in section 10 of RFC 4648. */
  lemma KnownEncodings()
    ensures Encode([102]) == "Zg==" && Encode([102, 111]) == "Zm8="
    ensures Encode([102, 111, 111]) == "Zm9v" && Encode([102, 111, 111, 98]) == "Zm9vYg=="
  {
    var foo: seq<Byte>, foob: seq<Byte> := [102, 111, 111], [102, 111, 111, 98];
    assert foo[3..] == [] && foob[3..] == [98];
    assert Encode([98]) == "Yg==";
  }
}
