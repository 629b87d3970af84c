/**
 Decimal numbers as Go prints and parses them: strconv.Itoa and strconv.Atoi on 64-bit integers.
 */
module Decimal {
  const MAX_INT: int := 0x7FFF_FFFF_FFFF_FFFF
  const MIN_INT: int := -0x8000_0000_0000_0000

  predicate IsDigit(c: char) {
    '0' <= c <= '9'
  }

  predicate AllDigits(s: string) {
    forall i | 0 <= i < |s| :: IsDigit(s[i])
  }

  function Digit(c: char): (d: nat)
    requires IsDigit(c)
    ensures d < 10
  {
    c as nat - '0' as nat
  }

  function Char(d: nat): (c: char)
    requires d < 10
    ensures IsDigit(c) && Digit(c) == d
  {
    ('0' as nat + d) as char
  }

  function Print(n: nat): string {
    if n < 10 then [Char(n)] else Print(n / 10) + [Char(n % 10)]
  }

  function Value(s: string): nat
    requires AllDigits(s)
  {
    if s == "" then 0 else 10 * Value(s[..|s| - 1]) + Digit(s[|s| - 1])
  }

  // Atoi: the value and whether there was no error; on a range error the value is clamped.
  function Atoi(s: string): (int, bool) {
    var negative := s != "" && s[0] == '-';
    var digits := if s != "" && (s[0] == '-' || s[0] == '+') then s[1..] else s;
    if digits == "" || !AllDigits(digits) then (0, false)
    else
      var v := if negative then -(Value(digits) as int) else Value(digits);
      if v > MAX_INT then (MAX_INT, false) else if v < MIN_INT then (MIN_INT, false) else (v, true)
  }

  lemma {:induction false} PrintValue(n: nat)
    ensures Print(n) != "" && AllDigits(Print(n)) && Value(Print(n)) == n
  {
    if n < 10 {
      assert [Char(n)][..0] == "";
    } else {
      PrintValue(n / 10);
      assert Print(n)[..|Print(n)| - 1] == Print(n / 10);
    }
  }

  // parse(print(n)) == n for every number that fits.
  lemma PrintParse(n: nat)
    ensures Atoi(Print(n)) == if n <= MAX_INT then (n, true) else (MAX_INT, false)
  {
    PrintValue(n);
  }

  function Zeros(k: nat): (z: string)
    ensures |z| == k && forall i | 0 <= i < k :: z[i] == '0'
  {
    seq(k, _ => '0')
  }

  // s is a way to write v: a sign, which must be a minus below 0, leading zeros, and the digits.
  ghost predicate Writes(s: string, v: int) {
    exists sign, k: nat :: WritesAs(s, v, sign, k)
  }

  predicate WritesAs(s: string, v: int, sign: string, k: nat) {
    && sign in ["", "+", "-"] && (sign == "-" ==> v <= 0) && (v < 0 ==> sign == "-")
    && s == sign + Zeros(k) + Print(if v < 0 then -v else v)
  }

  lemma {:induction false} ValueZeros(k: nat, n: nat)
    ensures AllDigits(Zeros(k) + Print(n)) && Value(Zeros(k) + Print(n)) == n
    decreases k, n
  {
    PrintValue(n);
    var s := Zeros(k) + Print(n);
    if n >= 10 {
      ValueZeros(k, n / 10);
      assert s[..|s| - 1] == Zeros(k) + Print(n / 10);
    } else if k > 0 {
      ValueZeros(k - 1, 0);
      assert s[..|s| - 1] == Zeros(k) == Zeros(k - 1) + Print(0);
    } else {
      assert s == Print(n);
    }
  }

  // Digits are zeros and then their value printed.
  lemma {:induction false} DigitsPrinted(s: string) returns (k: nat)
    requires AllDigits(s) && s != ""
    ensures s == Zeros(k) + Print(Value(s))
  {
    var n := |s| - 1;
    if n == 0 {
      k := 0;
      assert s[..0] == "";
    } else {
      k := DigitsPrinted(s[..n]);
      var v := Value(s[..n]);
      if v == 0 {
        assert Print(v) == "0" && Zeros(k) + "0" == Zeros(k + 1);
        k := k + 1;
        assert s == Zeros(k) + [Char(Digit(s[n]))];
      } else {
        assert Value(s) / 10 == v && Value(s) % 10 == Digit(s[n]);
        assert s == Zeros(k) + Print(v) + [s[n]];
      }
    }
  }

  lemma AtoiSigned(sign: string, digits: string)
    requires sign in ["", "+", "-"] && digits != "" && AllDigits(digits)
    ensures var v := if sign == "-" then -(Value(digits) as int) else Value(digits);
            Atoi(sign + digits) ==
              if v > MAX_INT then (MAX_INT, false) else if v < MIN_INT then (MIN_INT, false) else (v, true)
  {
    assert IsDigit(digits[0]);
    var s := sign + digits;
    if sign == "" { assert s == digits; } else { assert s[1..] == digits; }
  }

  lemma WrittenParses(s: string, v: int, sign: string, k: nat)
    requires WritesAs(s, v, sign, k) && MIN_INT <= v <= MAX_INT
    ensures Atoi(s) == (v, true)
  {
    var n: nat := if v < 0 then -v else v;
    var digits := Zeros(k) + Print(n);
    ValueZeros(k, n);
    PrintValue(n);
    assert s == sign + digits;
    AtoiSigned(sign, digits);
  }

  lemma ParsedSigned(s: string) returns (sign: string, digits: string)
    requires Atoi(s).1
    ensures sign in ["", "+", "-"] && digits != "" && AllDigits(digits) && s == sign + digits
  {
    sign, digits := "", s;
    if s[0] == '-' { sign, digits := "-", s[1..]; } else if s[0] == '+' { sign, digits := "+", s[1..]; }
  }

  lemma ParsedWritten(s: string)
    requires Atoi(s).1
    ensures MIN_INT <= Atoi(s).0 <= MAX_INT && Writes(s, Atoi(s).0)
  {
    var sign, digits := ParsedSigned(s);
    var k := DigitsPrinted(digits);
    AtoiSigned(sign, digits);
    var v := Atoi(s).0;
    SignedWrites(s, sign, k, Value(digits), v);
  }

  lemma SignedWrites(s: string, sign: string, k: nat, n: nat, v: int)
    requires sign in ["", "+", "-"] && v == if sign == "-" then -(n as int) else n
    requires s == sign + (Zeros(k) + Print(n))
    ensures Writes(s, v)
  {
    assert WritesAs(s, v, sign, k);
  }

  // Atoi accepts exactly the ways to write a number that fits, and gives that number.
  lemma AtoiExactly(s: string, v: int)
    ensures Atoi(s) == (v, true) <==> MIN_INT <= v <= MAX_INT && Writes(s, v)
  {
    if Atoi(s) == (v, true) { ParsedWritten(s); }
    if MIN_INT <= v <= MAX_INT {
      if sign, k: nat :| WritesAs(s, v, sign, k) { WrittenParses(s, v, sign, k); }
    }
  }
}
