/** Decimal numbers in message headers: printing an int and parsing a Go `int` (64 bits). */
module Decimal {
  import opened Options

  const MAX_INT := 0x7FFF_FFFF_FFFF_FFFF
  const MIN_INT := -0x8000_0000_0000_0000

  predicate IsDigit(c: char) {
    '0' <= c <= '9'
  }

  function Digits(n: nat): (s: string)
    ensures |s| >= 1 && AllDigits(s)
  {
    if n < 10 then [('0' as int + n) as char]
    else
      assert AllDigits(Digits(n / 10));
      Digits(n / 10) + [('0' as int + n % 10) as char]
  }

  predicate AllDigits(s: string) {
    forall i | 0 <= i < |s| :: IsDigit(s[i])
  }

  function Itoa(n: int): string {
    if n < 0 then "-" + Digits(-n) else Digits(n)
  }

  function Value(s: string): nat
    requires AllDigits(s)
  {
    if s == "" then 0
    else Value(s[..|s| - 1]) * 10 + (s[|s| - 1] as int - '0' as int)
  }

  /** An optional sign and at least one digit, within the range of the 64-bit int. */
  function Atoi(s: string): Option<int> {
    var signed := |s| > 0 && (s[0] == '-' || s[0] == '+');
    var body := if signed then s[1..] else s;
    if body == "" || !AllDigits(body) then None
    else
      var v: int := if signed && s[0] == '-' then -(Value(body) as int) else Value(body) as int;
      if MIN_INT <= v <= MAX_INT then Some(v) else None
  }

  lemma {:induction false} ValueOfDigits(n: nat)
    ensures Value(Digits(n)) == n
  {
    if n >= 10 {
      ValueOfDigits(n / 10);
      var s := Digits(n);
      assert s[..|s| - 1] == Digits(n / 10);
    } else {
      assert Digits(n)[..0] == "";
    }
  }

  lemma AtoiDigits(n: nat)
    ensures Atoi(Digits(n)) == if n <= MAX_INT then Some(n as int) else None
  {
    ValueOfDigits(n);
    assert IsDigit(Digits(n)[0]);
  }

  lemma AtoiMinusDigits(n: int)
    requires n < 0
    ensures Atoi("-" + Digits(-n)) == if MIN_INT <= n then Some(n) else None
  {
    ValueOfDigits(-n);
    var s := "-" + Digits(-n);
    assert s[0] == '-' && s[1..] == Digits(-n);
  }

  /** Parsing undoes printing, for every 64-bit integer and for no other. */
  lemma AtoiItoa(n: int)
    ensures Atoi(Itoa(n)) == if MIN_INT <= n <= MAX_INT then Some(n) else None
  {
    if n < 0 {
      AtoiMinusDigits(n);
    } else {
      AtoiDigits(n);
    }
  }

  // ---------------------------------------------------------------- which texts are numbers

  function Zeros(k: nat): string {
    if k == 0 then "" else Zeros(k - 1) + "0"
  }

  lemma {:induction false} ZerosAreNothing(k: nat)
    ensures AllDigits(Zeros(k)) && Value(Zeros(k)) == 0
  {
    if k > 0 {
      ZerosAreNothing(k - 1);
      assert Zeros(k)[..|Zeros(k)| - 1] == Zeros(k - 1);
    }
  }

  lemma {:induction false} ValueWithZeros(k: nat, n: nat)
    ensures AllDigits(Zeros(k) + Digits(n)) && Value(Zeros(k) + Digits(n)) == n
    decreases n
  {
    var s := Zeros(k) + Digits(n);
    ZerosAreNothing(k);
    if n < 10 {
      assert s[..|s| - 1] == Zeros(k);
    } else {
      ValueWithZeros(k, n / 10);
      assert s[..|s| - 1] == Zeros(k) + Digits(n / 10);
    }
  }

  lemma {:induction false} LeadingZeros(s: string) returns (k: nat)
    requires s != "" && AllDigits(s)
    ensures s == Zeros(k) + Digits(Value(s))
    decreases |s|
  {
    var front, c := s[..|s| - 1], s[|s| - 1];
    assert s == front + [c] && IsDigit(c);
    k := 0;
    if front != "" {
      var j := LeadingZeros(front);
      k := if Value(front) == 0 then j + 1 else j;
      DigitAppended(Value(front), c);
      assert Value(front) == 0 ==> Zeros(k) == front;
      assert Value(front) > 0 ==> Zeros(k) + (Digits(Value(front)) + [c]) == front + [c];
    }
  }

  lemma DigitAppended(n: nat, c: char)
    requires IsDigit(c)
    ensures n == 0 ==> Digits(n) == "0" && Digits(c as int - '0' as int) == [c]
    ensures n > 0 ==> Digits(n * 10 + (c as int - '0' as int)) == Digits(n) + [c]
  {
  }

  /** A text that spells a number: a sign if any, zeros if any, and the decimal digits. */
  ghost predicate Spells(s: string, v: int) {
    exists sign: string, k: nat :: SpelledWith(s, v, sign, k)
  }

  ghost predicate SpelledWith(s: string, v: int, sign: string, k: nat) {
    && s == sign + (Zeros(k) + Digits(if v < 0 then -v else v))
    && (sign == "" || sign == "+" || sign == "-")
    && (v < 0 ==> sign == "-") && (v > 0 ==> sign != "-")
  }

  lemma AtoiOfSpelled(s: string, v: int, sign: string, k: nat)
    requires SpelledWith(s, v, sign, k)
    ensures Atoi(s) == if MIN_INT <= v <= MAX_INT then Some(v) else None
  {
    var n := if v < 0 then -v else v;
    ValueWithZeros(k, n);
    if sign == "" {
      AtoiUnsigned(Zeros(k) + Digits(n), n);
      assert s == Zeros(k) + Digits(n);
    } else {
      AtoiSigned(sign[0], Zeros(k) + Digits(n), n);
      assert s == [sign[0]] + (Zeros(k) + Digits(n));
    }
  }

  lemma AtoiUnsigned(body: string, n: nat)
    requires body != "" && AllDigits(body) && Value(body) == n
    ensures Atoi(body) == if n <= MAX_INT then Some(n as int) else None
  {
    assert IsDigit(body[0]);
  }

  lemma AtoiSigned(sign: char, body: string, n: int)
    requires body != "" && AllDigits(body) && Value(body) == n && (sign == '+' || sign == '-')
    ensures
      var v := if sign == '-' then -n else n;
      Atoi([sign] + body) == if MIN_INT <= v <= MAX_INT then Some(v) else None
  {
    var s := [sign] + body;
    assert s[0] == sign && s[1..] == body;
  }

  lemma SpellingOf(s: string)
    requires Atoi(s).Some?
    ensures Spells(s, Atoi(s).value)
  {
    var signed := s[0] == '-' || s[0] == '+';
    var body := if signed then s[1..] else s;
    var k := LeadingZeros(body);
    var sign := if signed then s[..1] else "";
    assert s == sign + body;
    assert SpelledWith(s, Atoi(s).value, sign, k);
  }

  /** The texts that parse, and what they parse to. */
  lemma AtoiIff(s: string, v: int)
    ensures Atoi(s) == Some(v) <==> Spells(s, v) && MIN_INT <= v <= MAX_INT
  {
    if Atoi(s) == Some(v) {
      SpellingOf(s);
    }
    if sign: string, k: nat :| SpelledWith(s, v, sign, k) {
      AtoiOfSpelled(s, v, sign, k);
    }
  }
}
